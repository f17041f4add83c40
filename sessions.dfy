/**
 * The life of one client connection: a ClientHandler is registered when the
 * server accepts its socket, then logs a user in (or creates one), chooses
 * or creates a character, and leaves by `quit` or by losing the connection.
 * The handler's fields (user, character, online and the three trade fields)
 * are the `Session` record of its handle.
 */
module Sessions {
  import opened Wrappers
  import opened World
  import opened Records
  import Users

  /** The name a character is announced by: its row's name, "null" without a row. */
  function ShownName(w: World, id: int): string
  {
    NameOr(NameOf(w, id))
  }

  /**
   * disconnect: the client leaves the registry first; when it holds a
   * character, everyone still registered hears of it and the session goes
   * offline. Closing the socket ends the handler's thread.
   */
  function Disconnect(w: World, h: Handle): (w': World)
    requires h in w.sessions
    ensures w' == w.(registry := Without(w.registry, h), outbox := w'.outbox,
      sessions := w.sessions[h := w.sessions[h].(online := w.sessions[h].online && w.sessions[h].character.None?, alive := false)])
    ensures w.outbox <= w'.outbox
    ensures Sent(w, w') == match w.sessions[h].character
      case None => []
      case Some(c) => Broadcast(Without(w.registry, h), Display(Disconnected(ShownName(w, c))))
  {
    var s := w.sessions[h];
    match s.character
    case None => Leave(w, h, s.(alive := false))
    case Some(c) => SendAll(Leave(w, h, s.(online := false, alive := false)), Without(w.registry, h), Display(Disconnected(ShownName(w, c))))
  }

  /** The client leaves the registry and its record becomes `s`. */
  function Leave(w: World, h: Handle, s: Session): (w': World)
    ensures w' == w.(registry := Without(w.registry, h), sessions := w.sessions[h := s])
  {
    w.(registry := Without(w.registry, h), sessions := w.sessions[h := s])
  }

  /** A lost connection (the read throws): the client leaves the registry, no one is told. */
  function ConnectionLost(w: World, h: Handle): (w': World)
    requires h in w.sessions
    ensures forall x :: x in w'.registry <==> x in w.registry && x != h
    ensures w' == w.(registry := w'.registry, sessions := w.sessions[h := w.sessions[h].(alive := false)])
  {
    w.(registry := Without(w.registry, h), sessions := w.sessions[h := w.sessions[h].(alive := false)])
  }

  /** Disconnecting a registered client shrinks the registry by exactly that one client. */
  lemma {:induction false} WithoutRemovesOne(hs: seq<Handle>, h: Handle)
    requires h in hs
    requires forall i, j :: 0 <= i < j < |hs| ==> hs[i] != hs[j]
    ensures |Without(hs, h)| == |hs| - 1
  {
    if hs[0] != h {
      WithoutRemovesOne(hs[1..], h);
    } else {
      assert h !in hs[1..];
    }
  }

  // ----------------------------------------------------------------- accept

  /**
   * The accept loop of the server: a socket from a banned address is told so
   * and closed without a handler; any other gets a fresh handler record and
   * joins the clients map.
   */
  function Accept(w: World, h: Handle, address: string): (w': World)
    requires h !in w.sessions
    ensures address in w.bannedAddresses ==>
      w' == w.(log := w.log + [IpBannedClient(address)], outbox := w.outbox + [Delivery(h, ClientKicked(AddressBanned))])
    ensures address !in w.bannedAddresses ==>
      w' == w.(log := w.log + [GotClient(address)], sessions := w.sessions[h := NewSession(address)], registry := w.registry + [h])
  {
    if address in w.bannedAddresses then
      Send(AddLog(w, IpBannedClient(address)), h, ClientKicked(AddressBanned))
    else
      AddLog(w, GotClient(address)).(sessions := w.sessions[h := NewSession(address)], registry := w.registry + [h])
  }

  /** Accepting keeps every registered client backed by a record, and no client registered twice. */
  lemma AcceptKeepsRegistry(w: World, h: Handle, address: string)
    requires h !in w.sessions && Registered(w)
    requires forall i, j :: 0 <= i < j < |w.registry| ==> w.registry[i] != w.registry[j]
    ensures var w' := Accept(w, h, address);
      Registered(w') && forall i, j :: 0 <= i < j < |w'.registry| ==> w'.registry[i] != w'.registry[j]
  {
    var w' := Accept(w, h, address);
    if address !in w.bannedAddresses {
      assert h !in w.registry;
      forall i, j | 0 <= i < j < |w'.registry|
        ensures w'.registry[i] != w'.registry[j]
      {
        if j == |w.registry| {
          assert w'.registry[i] in w.registry;
        }
      }
    }
  }

  // ------------------------------------------------------------------ login

  /**
   * The exclusivity scan of `login`: some registered session whose user has
   * this id already holds a character. The client's own session counts, with
   * the user it has just been given.
   */
  predicate InPlay(w: World, h: Handle, id: int)
  {
    exists k :: k in w.registry && k in w.sessions && w.sessions[k].character.Some?
      && (k == h || (w.sessions[k].user.Some? && w.sessions[k].user.value.id == id))
  }

  /** A character of `order` whose row has this owner and this name. */
  predicate OwnsNamed(cs: map<int, CharacterRow>, order: seq<int>, username: string, n: string)
  {
    exists c :: c in order && c in cs && cs[c].owner == username && cs[c].name == n
  }

  /** getCharactersForUser: the names of the characters the user owns, in table order. */
  function OwnedNames(w: World, username: string): (names: seq<string>)
    ensures forall n :: n in names <==> OwnsNamed(w.characters, w.characterOrder, username, n)
  {
    OwnedAmong(w.characters, w.characterOrder, username)
  }

  function OwnedAmong(cs: map<int, CharacterRow>, order: seq<int>, username: string): (names: seq<string>)
    ensures forall n :: n in names <==> OwnsNamed(cs, order, username, n)
  {
    if |order| == 0 then []
    else
      var c := order[0];
      var rest := OwnedAmong(cs, order[1..], username);
      assert forall x :: x in order <==> x == c || x in order[1..];
      (if c in cs && cs[c].owner == username then [cs[c].name] else []) + rest
  }

  /** What login answers its client, and the log lines it adds first. */
  datatype Answer = Answer(msg: Msg, logged: seq<LogLine>)

  /**
   * The checks of login, in order: an unknown name, a user already in play,
   * a wrong password, a banned account; otherwise the user's characters.
   */
  function LoginAnswer(w: World, h: Handle, username: string, password: string): (a: Answer)
    requires h in w.sessions
    ensures var u := LoadUser(w, username);
      && (a.msg == LoginUnsuccessful(UnknownUser) <==> u.id == -1)
      && (a.msg == LoginUnsuccessful(AlreadyLoggedIn) <==> u.id != -1 && InPlay(w, h, u.id))
      && (a.msg == LoginUnsuccessful(WrongPassword) <==>
           u.id != -1 && !InPlay(w, h, u.id) && !Users.ValidatePassword(u.params, password))
      && (a.msg == LoginUnsuccessful(Banned) <==>
           u.id != -1 && !InPlay(w, h, u.id) && Users.ValidatePassword(u.params, password)
           && ParseBoolean(Lookup(u.params, "banned")))
      && (a.msg.LoginSuccessful? || a.msg.LoginUnsuccessful?)
      && (a.msg.LoginSuccessful? ==> a.msg.characters == OwnedNames(w, username))
    ensures var u := LoadUser(w, username);
      && (a.msg == LoginUnsuccessful(UnknownUser) ==> a.logged == [NoSuchUser(w.sessions[h].address)])
      && (a.msg == LoginUnsuccessful(AlreadyLoggedIn) ==> a.logged == [LoggedInTwice(Lookup(u.params, "name"))])
      && (a.msg == LoginUnsuccessful(WrongPassword) ==> a.logged == [BadPassword(w.sessions[h].address)])
      && (a.msg == LoginUnsuccessful(Banned) || a.msg.LoginSuccessful? ==> a.logged == [])
  {
    var address := w.sessions[h].address;
    var u := LoadUser(w, username);
    if u.id == -1 then Answer(LoginUnsuccessful(UnknownUser), [NoSuchUser(address)])
    else if InPlay(w, h, u.id) then Answer(LoginUnsuccessful(AlreadyLoggedIn), [LoggedInTwice(Lookup(u.params, "name"))])
    else if !Users.ValidatePassword(u.params, password) then Answer(LoginUnsuccessful(WrongPassword), [BadPassword(address)])
    else if ParseBoolean(Lookup(u.params, "banned")) then Answer(LoginUnsuccessful(Banned), [])
    else Answer(LoginSuccessful(OwnedNames(w, username)), [])
  }

  /**
   * login: the session's user becomes the loaded account before any check;
   * then the answer's log lines are added and the answer is sent.
   */
  function Login(w: World, h: Handle, username: string, password: string): (w': World)
    requires h in w.sessions
    ensures var a := LoginAnswer(w, h, username, password);
      w' == w.(sessions := w.sessions[h := w.sessions[h].(user := Some(LoadUser(w, username)))],
        log := w.log + a.logged, outbox := w.outbox + [Delivery(h, a.msg)])
  {
    var a := LoginAnswer(w, h, username, password);
    var w1 := PutSession(w, h, w.sessions[h].(user := Some(LoadUser(w, username))));
    Send(w1.(log := w.log + a.logged), h, a.msg)
  }

  /**
   * A login succeeds only for a stored user whose row holds exactly that
   * password, who is not banned and whom no session is playing.
   */
  lemma LoginNeedsPassword(w: World, h: Handle, username: string, password: string)
    requires h in w.sessions
    requires LoginAnswer(w, h, username, password).msg.LoginSuccessful?
    ensures username in w.userIds
    ensures var id := w.userIds[username];
      id >= 1 && id in w.users && Lookup(w.users[id], "password") == Some(password)
      && !ParseBoolean(Lookup(w.users[id], "banned"))
      && !InPlay(w, h, id)
  {
    var u := LoadUser(w, username);
    if u.id < 1 {
      Users.UnknownUserRejectsAll(u.id, UserRow(w, u.id), password);
    }
    Users.KnownUserPassword(u.id, UserRow(w, u.id), password);
    assert "banned" in Users.UserKeys;
  }

  /** A client already playing a character is refused as logged in, whatever the password. */
  lemma PlayingClientRefused(w: World, h: Handle, username: string, password: string)
    requires h in w.sessions && h in w.registry && w.sessions[h].character.Some?
    requires username in w.userIds && w.userIds[username] != -1
    ensures LoginAnswer(w, h, username, password).msg == LoginUnsuccessful(AlreadyLoggedIn)
  {
    assert InPlay(w, h, w.userIds[username]);
  }

  /** A user whose row holds "true" in its banned column never logs in, whatever the password. */
  lemma BannedRowRefused(w: World, h: Handle, username: string, password: string)
    requires h in w.sessions
    requires IdOf(w.userIds, username) in w.users
    requires Lookup(w.users[IdOf(w.userIds, username)], "banned") == Some("true")
    ensures !LoginAnswer(w, h, username, password).msg.LoginSuccessful?
  {
    assert "banned" in Users.UserKeys;
  }

  /** No answer of `login` touches the session's character, presence or trade. */
  lemma LoginKeepsCharacter(w: World, h: Handle, username: string, password: string)
    requires h in w.sessions
    ensures var s' := Login(w, h, username, password).sessions[h];
      s'.character == w.sessions[h].character && s'.online == w.sessions[h].online
      && s'.tradeItem == w.sessions[h].tradeItem && s'.tradingTo == w.sessions[h].tradingTo
      && s'.tradeAccept == w.sessions[h].tradeAccept
      && s'.user == Some(LoadUser(w, username))
  {
  }

  // ------------------------------------------------------------ create user

  /** The row createUser stores: the three given columns; every other column is null. */
  function NewUserRow(username: string, password: string, name: string): (p: Params)
    ensures Lookup(p, "username") == Some(username) && Lookup(p, "password") == Some(password)
    ensures Lookup(p, "name") == Some(name) && Lookup(p, "banned") == None && Lookup(p, "admin") == None
  {
    map["username" := Some(username), "password" := Some(password), "name" := Some(name)]
  }

  /**
   * createUser: refused when the username already has an id above 0;
   * otherwise a users row is stored under the next id, the session's user is
   * loaded from it, and the creation is logged.
   */
  function CreateUser(w: World, h: Handle, username: string, password: string, name: string): (w': World)
    requires h in w.sessions
    ensures IdOf(w.userIds, username) > 0 ==> OnlySent(w, w') && Sent(w, w') == [Delivery(h, CreateUserUnsuccessful)]
    ensures IdOf(w.userIds, username) <= 0 ==>
      var id := w.nextUserId;
      var stored := w.(userIds := w.userIds[username := id], users := w.users[id := NewUserRow(username, password, name)],
        nextUserId := id + 1);
      w' == stored.(sessions := w.sessions[h := w.sessions[h].(user := Some(LoadUser(stored, username)))],
        log := w.log + [CreatedUser(username)], outbox := w.outbox + [Delivery(h, CreateUserSuccessful)])
  {
    if IdOf(w.userIds, username) > 0 then Send(w, h, CreateUserUnsuccessful)
    else
      var id := w.nextUserId;
      var stored := w.(userIds := w.userIds[username := id], users := w.users[id := NewUserRow(username, password, name)],
        nextUserId := id + 1);
      Send(AddLog(PutSession(stored, h, w.sessions[h].(user := Some(LoadUser(stored, username)))), CreatedUser(username)),
        h, CreateUserSuccessful)
  }

  /**
   * The account createUser makes opens with exactly the password given and
   * is not banned: a later login by that name passes both checks.
   */
  lemma CreatedUserAcceptsPassword(w: World, h: Handle, username: string, password: string, name: string, tried: string)
    requires h in w.sessions && IdOf(w.userIds, username) <= 0 && w.nextUserId >= 1
    ensures var w' := CreateUser(w, h, username, password, name);
      var u := LoadUser(w', username);
      u.id == w.nextUserId && w'.sessions[h].user == Some(u)
      && (Users.ValidatePassword(u.params, tried) <==> tried == password)
      && !ParseBoolean(Lookup(u.params, "banned"))
  {
    var w' := CreateUser(w, h, username, password, name);
    var u := LoadUser(w', username);
    Users.KnownUserPassword(u.id, UserRow(w', u.id), tried);
    assert "banned" in Users.UserKeys;
  }

  // ------------------------------------------------------- create character

  /** The row createCharacter stores: the database's defaults with the name, class and owner given. */
  function NewCharacterRow(start: CharacterRow, name: string, classType: string, owner: Option<string>): (row: CharacterRow)
    ensures row.name == name && row.classType == classType && row.owner == NameOr(owner)
    ensures row == start.(name := row.name, classType := row.classType, owner := row.owner)
  {
    start.(name := name, classType := classType, owner := NameOr(owner))
  }

  /** The tables after createCharacter stored a row under the next id. */
  function StoreCharacter(w: World, name: string, row: CharacterRow): (w': World)
    ensures var id := w.nextCharacterId;
      w' == w.(characterIds := w.characterIds[name := id], characters := w.characters[id := row],
        characterOrder := w.characterOrder + [id], nextCharacterId := id + 1)
  {
    var id := w.nextCharacterId;
    w.(characterIds := w.characterIds[name := id], characters := w.characters[id := row],
      characterOrder := w.characterOrder + [id], nextCharacterId := id + 1)
  }

  /** The tables hold the new row, and the session holds the new character. */
  function Holding(w: World, h: Handle, name: string, classType: string, owner: Option<string>, start: CharacterRow): (w': World)
    requires h in w.sessions
    ensures w' == StoreCharacter(w, name, NewCharacterRow(start, name, classType, owner))
      .(sessions := w.sessions[h := w.sessions[h].(character := Some(w.nextCharacterId))])
  {
    PutSession(StoreCharacter(w, name, NewCharacterRow(start, name, classType, owner)), h,
      w.sessions[h].(character := Some(w.nextCharacterId)))
  }

  /** The log line reads the user's username, which throws without a user; then the client is answered. */
  function Confirm(w: World, h: Handle, user: Option<Account>, name: string): (r: Run)
    ensures r.w.sessions == w.sessions && r.w.characters == w.characters
    ensures r.w.characterIds == w.characterIds && r.w.characterOrder == w.characterOrder
    ensures user.None? ==> r == Run(w, true)
    ensures user.Some? ==> !r.crashed && r.w == w.(log := w.log + [CreatedCharacter(Lookup(user.value.params, "username"), name)],
      outbox := w.outbox + [Delivery(h, CreateCharacterSuccessful)])
  {
    match user
    case None => Run(w, true)
    case Some(u) => Run(Send(AddLog(w, CreatedCharacter(Lookup(u.params, "username"), name)), h, CreateCharacterSuccessful), false)
  }

  /**
   * createCharacter: refused when the name already has an id above 0;
   * otherwise the row is stored and the session holds the new character
   * before the logging can throw.
   */
  function CreateCharacter(w: World, h: Handle, name: string, classType: string, owner: Option<string>, start: CharacterRow): (r: Run)
    requires h in w.sessions
    ensures r.crashed <==> IdOf(w.characterIds, name) <= 0 && w.sessions[h].user.None?
    ensures IdOf(w.characterIds, name) > 0 ==>
      OnlySent(w, r.w) && Sent(w, r.w) == [Delivery(h, CreateCharacterUnsuccessful)]
    ensures IdOf(w.characterIds, name) <= 0 ==>
      r == Confirm(Holding(w, h, name, classType, owner, start), h, w.sessions[h].user, name)
  {
    if IdOf(w.characterIds, name) > 0 then Run(Send(w, h, CreateCharacterUnsuccessful), false)
    else Confirm(Holding(w, h, name, classType, owner, start), h, w.sessions[h].user, name)
  }

  /**
   * A created character is the session's, its name now looks up to it, and
   * it is listed among its owner's characters at the next login.
   */
  lemma CreatedCharacterListed(w: World, h: Handle, name: string, classType: string, username: string, start: CharacterRow)
    requires h in w.sessions && IdOf(w.characterIds, name) <= 0
    ensures var w' := CreateCharacter(w, h, name, classType, Some(username), start).w;
      w'.sessions[h].character == Some(IdOf(w'.characterIds, name))
      && CharacterOf(w', IdOf(w'.characterIds, name)) == Some(NewCharacterRow(start, name, classType, Some(username)))
      && name in OwnedNames(w', username)
  {
    var row := NewCharacterRow(start, name, classType, Some(username));
    var id := w.nextCharacterId;
    var held := Holding(w, h, name, classType, Some(username), start);
    assert held.characters == w.characters[id := row] && held.characterIds == w.characterIds[name := id];
    assert held.characterOrder == w.characterOrder + [id] && held.sessions[h].character == Some(id);
    var w' := CreateCharacter(w, h, name, classType, Some(username), start).w;
    assert w'.characters == held.characters && w'.characterOrder == held.characterOrder;
    assert id in w'.characterOrder && id in w'.characters && w'.characters[id].owner == username;
    assert OwnsNamed(w'.characters, w'.characterOrder, username, name);
  }

  // -------------------------------------------------------- select character

  /**
   * selectCharacter, up to its answer: the session holds the character the
   * name looks up to (-1 for an unknown name) before anything is checked;
   * logging reads the user's username, which throws without a user.
   * Otherwise the session goes online, every registered client hears of it,
   * and the client is answered.
   */
  function SelectCharacter(w: World, h: Handle, name: string): (r: Run)
    requires h in w.sessions
    ensures var id := IdOf(w.characterIds, name);
      var held := PutSession(w, h, w.sessions[h].(character := Some(id)));
      (r.crashed <==> w.sessions[h].user.None?)
      && (r.crashed ==> r.w == held)
      && (!r.crashed ==>
        r.w.sessions == w.sessions[h := w.sessions[h].(character := Some(id), online := true)]
        && r.w == w.(sessions := r.w.sessions, log := r.w.log, outbox := r.w.outbox)
        && r.w.log == w.log + [CharacterChosen(Lookup(w.sessions[h].user.value.params, "username"), name)]
        && r.w.outbox == w.outbox + Broadcast(w.registry, Display(LoggedIn(ShownName(w, id))))
             + [Delivery(h, SelectCharacterSuccessful)])
  {
    var s := w.sessions[h];
    var id := IdOf(w.characterIds, name);
    match s.user
    case None => Run(PutSession(w, h, s.(character := Some(id))), true)
    case Some(u) =>
      var w1 := AddLog(PutSession(w, h, s.(character := Some(id), online := true)), CharacterChosen(Lookup(u.params, "username"), name));
      Run(Send(NotifyAll(w1, Display(LoggedIn(ShownName(w, id)))), h, SelectCharacterSuccessful), false)
  }

  /** Selecting a character just created by the same client holds that character and announces its name to every client. */
  lemma SelectAfterCreate(w: World, h: Handle, name: string, classType: string, owner: Option<string>, start: CharacterRow, k: Handle)
    requires h in w.sessions && w.sessions[h].user.Some? && IdOf(w.characterIds, name) <= 0
    requires k in w.registry
    ensures var w1 := CreateCharacter(w, h, name, classType, owner, start).w;
      var r := SelectCharacter(w1, h, name);
      !r.crashed && r.w.sessions[h].character == w1.sessions[h].character && r.w.sessions[h].online
      && Delivery(k, Display(LoggedIn(name))) in Sent(w1, r.w)
  {
    var w1 := CreateCharacter(w, h, name, classType, owner, start).w;
    CreatedNamed(w, h, name, classType, owner, start);
    SelectAnnounces(w1, h, name, k);
  }

  /** After a creation, the session still holds its user, the registry is as before, and the name shows as given. */
  lemma CreatedNamed(w: World, h: Handle, name: string, classType: string, owner: Option<string>, start: CharacterRow)
    requires h in w.sessions && w.sessions[h].user.Some? && IdOf(w.characterIds, name) <= 0
    ensures var w1 := CreateCharacter(w, h, name, classType, owner, start).w;
      h in w1.sessions && w1.sessions[h].user == w.sessions[h].user && w1.registry == w.registry
      && ShownName(w1, IdOf(w1.characterIds, name)) == name
  {
  }

  /** Selecting a character, with a user logged in, announces its shown name to every registered client. */
  lemma SelectAnnounces(w: World, h: Handle, name: string, k: Handle)
    requires h in w.sessions && w.sessions[h].user.Some? && k in w.registry
    ensures var r := SelectCharacter(w, h, name);
      !r.crashed && r.w.sessions[h].character == Some(IdOf(w.characterIds, name)) && r.w.sessions[h].online
      && Delivery(k, Display(LoggedIn(ShownName(w, IdOf(w.characterIds, name))))) in Sent(w, r.w)
  {
    var r := SelectCharacter(w, h, name);
    var m := Display(LoggedIn(ShownName(w, IdOf(w.characterIds, name))));
    assert Sent(w, r.w) == Broadcast(w.registry, m) + [Delivery(h, SelectCharacterSuccessful)];
    BroadcastReaches(w.registry, m, k);
  }

  /** A broadcast over a list of clients reaches each of them. */
  lemma BroadcastReaches(hs: seq<Handle>, m: Msg, k: Handle)
    requires k in hs
    ensures Delivery(k, m) in Broadcast(hs, m)
  {
    var i :| 0 <= i < |hs| && hs[i] == k;
    assert Broadcast(hs, m)[i] == Delivery(k, m);
  }
}
