/**
 * The administrator's console: executeServerCommand reads a line against
 * the server command table (names only, no abbreviations) and runs kick,
 * ban, banbyip, deleteuser, deletecharacter, move, commands, listusers or
 * shutdown. A command that looks for a client walks the clients map in its
 * iteration order, the registry, and reads one field of every session it
 * passes; a session without that field throws, and the command ends there
 * with what it had done so far.
 */
module Admin {
  import opened Wrappers
  import opened World
  import opened Records
  import opened Dispatch
  import Sessions
  import Scheduler
  import Audience

  /** What a scan reads of each session: its character's name (kick) or its user's username (the others). */
  datatype Probe = CharacterName | Username

  /** The session has the field the probe reads: a character with a row, or a user. */
  predicate Readable(w: World, k: Handle, p: Probe)
    requires k in w.sessions
  {
    match p
    case CharacterName => w.sessions[k].character.Some? && w.sessions[k].character.value in w.characters
    case Username => w.sessions[k].user.Some?
  }

  /** The session is one the command is after: the name it reads equals the argument. */
  predicate Hit(w: World, k: Handle, p: Probe, arg: string)
    requires k in w.sessions
  {
    Readable(w, k, p) &&
    match p
    case CharacterName => w.characters[w.sessions[k].character.value].name == arg
    case Username => Lookup(w.sessions[k].user.value.params, "username") == Some(arg)
  }

  /** What the loop of a console command makes of one client: throw, take it, or pass it by. */
  function ProbeVerdict(w: World, p: Probe, arg: string, k: Handle): Audience.Verdict
  {
    if k !in w.sessions then Audience.Skip
    else if !Readable(w, k, p) then Audience.Fault
    else if Hit(w, k, p, arg) then Audience.Keep
    else Audience.Skip
  }

  /** The loop over the clients: the sessions it matched, in order, up to the first one that throws. */
  function ScanFor(w: World, hs: seq<Handle>, p: Probe, arg: string): (s: Audience.Selection)
    requires forall k :: k in hs ==> k in w.sessions
    ensures s.faulted <==> exists k :: k in hs && !Readable(w, k, p)
    ensures forall k :: k in s.kept ==> k in hs && Hit(w, k, p, arg)
    ensures !s.faulted ==> forall k :: k in hs && Hit(w, k, p, arg) ==> k in s.kept
  {
    var s := Audience.Scan(hs, k => ProbeVerdict(w, p, arg, k));
    assert s.faulted ==> exists k :: k in hs && !Readable(w, k, p) by {
      if s.faulted {
        var i :| 0 <= i < |hs| && ProbeVerdict(w, p, arg, hs[i]) == Audience.Fault;
        assert hs[i] in hs;
      }
    }
    s
  }

  /** The client the command acts on is the last match: it sits at `i`, and no session after it matches. */
  lemma {:induction false} LastMatchIsLastHit(w: World, hs: seq<Handle>, p: Probe, arg: string) returns (i: nat)
    requires forall k :: k in hs ==> k in w.sessions
    requires var s := ScanFor(w, hs, p, arg); !s.faulted && |s.kept| > 0
    ensures var m := ScanFor(w, hs, p, arg).kept;
      i < |hs| && hs[i] == m[|m| - 1] && forall j :: i < j < |hs| ==> !Hit(w, hs[j], p, arg)
    decreases |hs|
  {
    var v := k => ProbeVerdict(w, p, arg, k);
    var rest := ScanFor(w, hs[1..], p, arg);
    assert Audience.Scan(hs[1..], v) == rest;
    if |rest.kept| > 0 {
      var i' := LastMatchIsLastHit(w, hs[1..], p, arg);
      i := i' + 1;
    } else {
      i := 0;
      forall j | 0 < j < |hs|
        ensures !Hit(w, hs[j], p, arg)
      {
        assert hs[j] == hs[1..][j - 1];
      }
    }
  }

  /** The user ids of matched sessions, in order. */
  function UserIdsOf(w: World, ks: seq<Handle>): (ids: seq<int>)
    requires forall k :: k in ks ==> k in w.sessions && w.sessions[k].user.Some?
    ensures |ids| == |ks|
    ensures forall i :: 0 <= i < |ks| ==> ks[i] in w.sessions && w.sessions[ks[i]].user.Some? && ids[i] == w.sessions[ks[i]].user.value.id
  {
    if |ks| == 0 then [] else
      var k := ks[0];
      assert k in w.sessions;
      [w.sessions[k].user.value.id] + UserIdsOf(w, ks[1..])
  }

  /** The socket addresses of matched sessions. */
  function AddressesOf(w: World, ks: seq<Handle>): (a: set<string>)
    requires forall k :: k in ks ==> k in w.sessions
    ensures forall x :: x in a <==> exists k :: k in ks && w.sessions[k].address == x
  {
    set k | k in ks :: w.sessions[k].address
  }

  /** setBanned(id, true) for each id in turn; an id without a row changes nothing. */
  function SetBanned(users: map<int, Params>, ids: seq<int>): (u: map<int, Params>)
    ensures u.Keys == users.Keys
    ensures forall id :: id in users && id in ids ==> u[id] == users[id]["banned" := Some("true")]
    ensures forall id :: id in users && id !in ids ==> u[id] == users[id]
    decreases |ids|
  {
    if |ids| == 0 then users
    else
      var rest := SetBanned(users, ids[1..]);
      assert forall id :: id in ids <==> id == ids[0] || id in ids[1..];
      if ids[0] in rest then rest[ids[0] := users[ids[0]]["banned" := Some("true")]] else rest
  }

  /** The session the command acts on: the last one the scan matched. */
  function LastOf(found: seq<Handle>): Handle
    requires |found| > 0
  {
    found[|found| - 1]
  }

  /**
   * The end of kick, ban and banbyip: the last client found is told why and
   * disconnected; with none found, the log says so. No table changes.
   */
  function PutOut(w: World, found: seq<Handle>, arg: string, why: KickReason): (w': World)
    requires forall k :: k in found ==> k in w.sessions
    ensures w'.users == w.users && w'.userIds == w.userIds && w'.characters == w.characters
      && w'.bannedAddresses == w.bannedAddresses
    ensures |found| == 0 ==> w' == AddLog(w, NotFound(arg))
    ensures |found| > 0 ==> var c := LastOf(found);
      c !in w'.registry && c in w'.sessions && !w'.sessions[c].alive
      && Delivery(c, ClientKicked(why)) in w'.outbox && w'.log == w.log
  {
    if |found| == 0 then AddLog(w, NotFound(arg))
    else
      var c := LastOf(found);
      var w1 := Send(w, c, ClientKicked(why));
      assert w1.outbox[|w1.outbox| - 1] == Delivery(c, ClientKicked(why));
      Sessions.Disconnect(w1, c)
  }

  /** A scan that does not throw and meets a hit matches something. */
  lemma HitFound(w: World, hs: seq<Handle>, p: Probe, arg: string, k: Handle)
    requires forall x :: x in hs ==> x in w.sessions
    requires !ScanFor(w, hs, p, arg).faulted && k in hs && Hit(w, k, p, arg)
    ensures |ScanFor(w, hs, p, arg).kept| > 0
  {
    assert k in ScanFor(w, hs, p, arg).kept;
  }

  /** A scan that meets no hit matches nothing. */
  lemma {:induction false} NoHitNothingFound(w: World, hs: seq<Handle>, p: Probe, arg: string)
    requires forall x :: x in hs ==> x in w.sessions
    requires forall x :: x in hs ==> !Hit(w, x, p, arg)
    ensures ScanFor(w, hs, p, arg).kept == []
    decreases |hs|
  {
    if |hs| > 0 {
      NoHitNothingFound(w, hs[1..], p, arg);
    }
  }

  // -------------------------------------------------------------------- kick

  /** The log lines of kick: one per session found with the name. */
  function KickLines(name: string, n: nat): (ls: seq<LogLine>)
    ensures |ls| == n && forall i :: 0 <= i < n ==> ls[i] == Kicked(name)
  {
    seq(n, _ => Kicked(name))
  }

  function Logged(w: World, lines: seq<LogLine>): (w': World)
    ensures w' == w.(log := w.log + lines)
  {
    w.(log := w.log + lines)
  }

  /** kick 'name' 'reason': every session passed must hold a character with a row, or the scan throws. */
  function Kick(w: World, name: string, why: string): (r: Run)
    requires Registered(w)
    ensures r.crashed <==> exists k :: k in w.registry && !Readable(w, k, CharacterName)
    ensures r.w.users == w.users && r.w.userIds == w.userIds && r.w.characters == w.characters
  {
    var s := ScanFor(w, w.registry, CharacterName, name);
    var w1 := Logged(w, KickLines(name, |s.kept|));
    if s.faulted then Run(w1, true)
    else Run(PutOut(w1, s.kept, name, KickedFor(why)), false)
  }

  /** A kick that finds its character disconnects the last such client and tells it why. */
  lemma KickPutsOut(w: World, name: string, why: string)
    requires Registered(w)
    requires forall k :: k in w.registry ==> Readable(w, k, CharacterName)
    requires exists k :: k in w.registry && Hit(w, k, CharacterName, name)
    ensures var w' := Kick(w, name, why).w;
      exists c :: c in w.registry && Hit(w, c, CharacterName, name)
        && c !in w'.registry && !w'.sessions[c].alive
        && Delivery(c, ClientKicked(KickedFor(why))) in w'.outbox
  {
    var s := ScanFor(w, w.registry, CharacterName, name);
    var k :| k in w.registry && Hit(w, k, CharacterName, name);
    HitFound(w, w.registry, CharacterName, name, k);
  }

  /** A kick that finds no such character only logs that it did not. */
  lemma KickNobody(w: World, name: string, why: string)
    requires Registered(w)
    requires forall k :: k in w.registry ==> Readable(w, k, CharacterName) && !Hit(w, k, CharacterName, name)
    ensures Kick(w, name, why) == Run(AddLog(w, NotFound(name)), false)
  {
    NoHitNothingFound(w, w.registry, CharacterName, name);
    assert w.(log := w.log + []) == w;
  }

  // --------------------------------------------------------------------- ban

  function BanLines(ids: seq<int>): (ls: seq<LogLine>)
    ensures |ls| == |ids| && forall i :: 0 <= i < |ids| ==> ls[i] == BannedUser(ids[i])
  {
    seq(|ids|, i requires 0 <= i < |ids| => BannedUser(ids[i]))
  }

  /** The log lines and the banned column that ban writes for the ids it found. */
  function MarkBanned(w: World, ids: seq<int>): (w': World)
    ensures w' == w.(log := w.log + BanLines(ids), users := SetBanned(w.users, ids))
  {
    w.(log := w.log + BanLines(ids), users := SetBanned(w.users, ids))
  }

  /** ban 'username' 'reason': each matching session's user is logged and set banned, then the last one is put out. */
  function Ban(w: World, username: string, why: string): (r: Run)
    requires Registered(w)
    ensures r.crashed <==> exists k :: k in w.registry && !Readable(w, k, Username)
    ensures r.w.userIds == w.userIds && r.w.characters == w.characters
    ensures r.w.users == SetBanned(w.users, UserIdsOf(w, ScanFor(w, w.registry, Username, username).kept))
  {
    var s := ScanFor(w, w.registry, Username, username);
    var w1 := MarkBanned(w, UserIdsOf(w, s.kept));
    if s.faulted then Run(w1, true)
    else Run(PutOut(w1, s.kept, username, BannedFor(why)), false)
  }

  /** Every user the ban found holds "true" in its banned column afterwards, even when the scan threw later. */
  lemma BanMarks(w: World, username: string, why: string, k: Handle)
    requires Registered(w)
    requires k in ScanFor(w, w.registry, Username, username).kept && w.sessions[k].user.value.id in w.users
    ensures var id := w.sessions[k].user.value.id; var u := Ban(w, username, why).w.users;
      id in u && Lookup(u[id], "banned") == Some("true")
  {
    var m := ScanFor(w, w.registry, Username, username).kept;
    var i :| 0 <= i < |m| && m[i] == k;
    var ids := UserIdsOf(w, m);
    assert ids[i] == w.sessions[k].user.value.id;
    assert ids[i] in ids;
  }

  /** A ban that finds its user tells the last matching client why and disconnects it. */
  lemma BanPutsOut(w: World, username: string, why: string)
    requires Registered(w) && Found(w, Username, username)
    ensures var c := Target(w, Username, username); var r := Ban(w, username, why);
      !r.crashed && c !in r.w.registry && c in r.w.sessions && !r.w.sessions[c].alive
      && Delivery(c, ClientKicked(BannedFor(why))) in r.w.outbox
  {
    var s := ScanFor(w, w.registry, Username, username);
    assert !s.faulted;
  }

  /** A ban that finds nobody only logs that the user was not found. */
  lemma BanNobody(w: World, username: string, why: string)
    requires Registered(w) && NoneFound(w, Username, username)
    ensures Ban(w, username, why) == Run(AddLog(w, NotFound(username)), false)
  {
    NoHitNothingFound(w, w.registry, Username, username);
    var u := SetBanned(w.users, []);
    assert u == w.users by {
      assert u.Keys == w.users.Keys;
    }
    assert MarkBanned(w, UserIdsOf(w, [])) == w;
  }

  /** After a ban, a user it found is refused at login, whatever password is given. */
  lemma BannedUserRefused(w: World, username: string, why: string, k: Handle, h: Handle, login: string, password: string)
    requires Registered(w)
    requires forall x :: x in w.registry ==> Readable(w, x, Username)
    requires k in w.registry && Hit(w, k, Username, username) && w.sessions[k].user.value.id in w.users
    requires h in Ban(w, username, why).w.sessions
    requires IdOf(w.userIds, login) == w.sessions[k].user.value.id
    ensures !Sessions.LoginAnswer(Ban(w, username, why).w, h, login, password).msg.LoginSuccessful?
  {
    assert k in ScanFor(w, w.registry, Username, username).kept;
    BanMarks(w, username, why, k);
    Sessions.BannedRowRefused(Ban(w, username, why).w, h, login, password);
  }

  // ----------------------------------------------------------------- banbyip

  function IpBanLines(ids: seq<int>): (ls: seq<LogLine>)
    ensures |ls| == |ids| && forall i :: 0 <= i < |ids| ==> ls[i] == BannedByIp(ids[i])
  {
    seq(|ids|, i requires 0 <= i < |ids| => BannedByIp(ids[i]))
  }

  /** The log lines and the banned addresses that banbyip writes for the sessions it found. */
  function MarkAddresses(w: World, ids: seq<int>, addresses: set<string>): (w': World)
    ensures w' == w.(log := w.log + IpBanLines(ids), bannedAddresses := w.bannedAddresses + addresses)
  {
    w.(log := w.log + IpBanLines(ids), bannedAddresses := w.bannedAddresses + addresses)
  }

  /**
   * banbyip 'ip' 'reason': despite its description the argument is compared
   * with each session's username; the address of every match is banned.
   */
  function BanByIp(w: World, username: string, why: string): (r: Run)
    requires Registered(w)
    ensures r.crashed <==> exists k :: k in w.registry && !Readable(w, k, Username)
    ensures r.w.users == w.users && r.w.userIds == w.userIds && r.w.characters == w.characters
    ensures var m := ScanFor(w, w.registry, Username, username).kept;
      r.w.bannedAddresses == w.bannedAddresses + AddressesOf(w, m)
  {
    var s := ScanFor(w, w.registry, Username, username);
    var w1 := MarkAddresses(w, UserIdsOf(w, s.kept), AddressesOf(w, s.kept));
    if s.faulted then Run(w1, true)
    else Run(PutOut(w1, s.kept, username, IpBannedFor(why)), false)
  }

  /** A banbyip that finds its user tells the last matching client why and disconnects it. */
  lemma BanByIpPutsOut(w: World, username: string, why: string)
    requires Registered(w) && Found(w, Username, username)
    ensures var c := Target(w, Username, username); var r := BanByIp(w, username, why);
      !r.crashed && c !in r.w.registry && c in r.w.sessions && !r.w.sessions[c].alive
      && Delivery(c, ClientKicked(IpBannedFor(why))) in r.w.outbox
  {
    var s := ScanFor(w, w.registry, Username, username);
    assert !s.faulted;
  }

  /** A banbyip that finds nobody only logs that the user was not found. */
  lemma BanByIpNobody(w: World, username: string, why: string)
    requires Registered(w) && NoneFound(w, Username, username)
    ensures BanByIp(w, username, why) == Run(AddLog(w, NotFound(username)), false)
  {
    NoHitNothingFound(w, w.registry, Username, username);
    assert AddressesOf(w, []) == {};
    assert w.bannedAddresses + {} == w.bannedAddresses;
    assert MarkAddresses(w, UserIdsOf(w, []), AddressesOf(w, [])) == w;
  }

  /** After banbyip, a new connection from the address of a session it found is turned away. */
  lemma IpBannedAddressRefused(w: World, username: string, why: string, k: Handle, h: Handle)
    requires Registered(w)
    requires forall x :: x in w.registry ==> Readable(w, x, Username)
    requires k in w.registry && Hit(w, k, Username, username)
    requires h !in BanByIp(w, username, why).w.sessions
    ensures var w' := BanByIp(w, username, why).w; var a := w.sessions[k].address;
      Sessions.Accept(w', h, a) == w'.(log := w'.log + [IpBannedClient(a)], outbox := w'.outbox + [Delivery(h, ClientKicked(AddressBanned))])
  {
    assert k in ScanFor(w, w.registry, Username, username).kept;
  }

  // ------------------------------------------------------- deleting records

  /** deleteUser(id): the user row goes, and with it the username lookup of every name that led to it. */
  function RemoveUser(w: World, id: int): (w': World)
    ensures w' == w.(users := w.users - {id}, userIds := w'.userIds)
    ensures forall n :: n in w'.userIds <==> n in w.userIds && w.userIds[n] != id
    ensures forall n :: n in w'.userIds ==> w'.userIds[n] == w.userIds[n]
  {
    w.(users := w.users - {id}, userIds := map n | n in w.userIds && w.userIds[n] != id :: w.userIds[n])
  }

  /** Deleting a character row: the row, its name lookup and its place in the table order go. */
  function RemoveCharacter(w: World, id: int): (w': World)
    ensures w' == w.(characters := w.characters - {id}, characterIds := w'.characterIds, characterOrder := Without(w.characterOrder, id))
    ensures forall n :: n in w'.characterIds <==> n in w.characterIds && w.characterIds[n] != id
    ensures forall n :: n in w'.characterIds ==> w'.characterIds[n] == w.characterIds[n]
  {
    w.(characters := w.characters - {id},
       characterIds := map n | n in w.characterIds && w.characterIds[n] != id :: w.characterIds[n],
       characterOrder := Without(w.characterOrder, id))
  }

  /** Nobody registered lacks the field the probe reads, and somebody matches. */
  predicate Found(w: World, p: Probe, arg: string)
    requires Registered(w)
  {
    (forall k :: k in w.registry ==> Readable(w, k, p))
    && exists k :: k in w.registry && Hit(w, k, p, arg)
  }

  /** The client a scan that found something acts on: the last match. */
  function Target(w: World, p: Probe, arg: string): (c: Handle)
    requires Registered(w) && Found(w, p, arg)
    ensures c in w.registry && Hit(w, c, p, arg)
  {
    var k :| k in w.registry && Hit(w, k, p, arg);
    HitFound(w, w.registry, p, arg, k);
    LastOf(ScanFor(w, w.registry, p, arg).kept)
  }

  /** The console commands that end with "not found" when the scan neither throws nor finds anything. */
  predicate NoneFound(w: World, p: Probe, arg: string)
    requires Registered(w)
  {
    (forall k :: k in w.registry ==> Readable(w, k, p))
    && forall k :: k in w.registry ==> !Hit(w, k, p, arg)
  }

  /** deleteuser 'username': the last matching client is disconnected, then its user row is deleted. */
  function DeleteUser(w: World, username: string): (r: Run)
    requires Registered(w)
    ensures r.crashed <==> exists k :: k in w.registry && !Readable(w, k, Username)
    ensures r.crashed ==> r.w == w
    ensures NoneFound(w, Username, username) ==> r == Run(AddLog(w, NotFound(username)), false)
    ensures Found(w, Username, username) ==> r == Run(DropUser(w, Target(w, Username, username)), false)
  {
    if exists k :: k in w.registry && !Readable(w, k, Username) then Run(w, true)
    else if NoneFound(w, Username, username) then Run(AddLog(w, NotFound(username)), false)
    else Run(DropUser(w, Target(w, Username, username)), false)
  }

  /** The found client of deleteuser is disconnected and its user row, with its name lookups, deleted. */
  function DropUser(w: World, c: Handle): (w': World)
    requires c in w.sessions && w.sessions[c].user.Some?
    ensures c !in w'.registry && w'.characters == w.characters
    ensures w.sessions[c].user.value.id !in w'.users
    ensures forall n :: n in w'.userIds ==> w'.userIds[n] != w.sessions[c].user.value.id
  {
    RemoveUser(Sessions.Disconnect(w, c), w.sessions[c].user.value.id)
  }

  /**
   * deletecharacter 'character', as written: it compares the argument with
   * each session's username, and then deletes the USER whose id is the id of
   * that session's character.
   */
  function DeleteCharacterAsWritten(w: World, username: string): (r: Run)
    requires Registered(w)
    ensures r.crashed <==> exists k :: k in w.registry && !Readable(w, k, Username)
    ensures r.crashed ==> r.w == w
    ensures NoneFound(w, Username, username) ==> r == Run(AddLog(w, NotFound(username)), false)
    ensures Found(w, Username, username) ==> r == Run(DropCharacterAsWritten(w, Target(w, Username, username)), false)
  {
    if exists k :: k in w.registry && !Readable(w, k, Username) then Run(w, true)
    else if NoneFound(w, Username, username) then Run(AddLog(w, NotFound(username)), false)
    else Run(DropCharacterAsWritten(w, Target(w, Username, username)), false)
  }

  /** As written: the found client is disconnected, then the user numbered like its character goes. */
  function DropCharacterAsWritten(w: World, c: Handle): (w': World)
    requires c in w.sessions
    ensures c !in w'.registry && w'.characters == w.characters
    ensures w.sessions[c].character.Some? ==> w.sessions[c].character.value !in w'.users
  {
    var w1 := Sessions.Disconnect(w, c);
    match w.sessions[c].character
    case None => w1
    case Some(id) => RemoveUser(w1, id)
  }

  /** The code as written keeps the character, and deletes the user that has the character's id. */
  lemma DeleteCharacterLosesUser(w: World, username: string)
    requires Registered(w) && Found(w, Username, username)
    requires w.sessions[Target(w, Username, username)].character.Some?
    ensures var id := w.sessions[Target(w, Username, username)].character.value;
      var w' := DeleteCharacterAsWritten(w, username).w;
      w'.characters == w.characters && id !in w'.users
  {
  }

  /** deletecharacter 'character', corrected: the character of the last matching client is the row deleted. */
  function DeleteCharacter(w: World, username: string): (r: Run)
    requires Registered(w)
    ensures r.crashed <==> exists k :: k in w.registry && !Readable(w, k, Username)
    ensures r.crashed ==> r.w == w
    ensures NoneFound(w, Username, username) ==> r == Run(AddLog(w, NotFound(username)), false)
    ensures Found(w, Username, username) ==> r == Run(DropCharacter(w, Target(w, Username, username)), false)
  {
    if exists k :: k in w.registry && !Readable(w, k, Username) then Run(w, true)
    else if NoneFound(w, Username, username) then Run(AddLog(w, NotFound(username)), false)
    else Run(DropCharacter(w, Target(w, Username, username)), false)
  }

  /** Corrected: the found client is disconnected, then its character's row goes, and no user. */
  function DropCharacter(w: World, c: Handle): (w': World)
    requires c in w.sessions
    ensures c !in w'.registry && w'.users == w.users && w'.userIds == w.userIds
    ensures w.sessions[c].character.Some? ==> var id := w.sessions[c].character.value;
      id !in w'.characters && forall n :: n in w'.characterIds ==> w'.characterIds[n] != id
    ensures w.sessions[c].character.None? ==> w'.characters == w.characters
  {
    var w1 := Sessions.Disconnect(w, c);
    match w.sessions[c].character
    case None => w1
    case Some(id) => RemoveCharacter(w1, id)
  }

  // ------------------------------------------------------ listing commands

  /** One line of listusers: the username, the address, and the character's name when there is one. */
  function UserLine(w: World, k: Handle): (Option<string>, string, Option<string>)
    requires k in w.sessions && w.sessions[k].user.Some?
  {
    var s := w.sessions[k];
    (Lookup(s.user.value.params, "username"), s.address,
     if s.character.Some? then Some(Sessions.ShownName(w, s.character.value)) else None)
  }

  /** listusers: one line per client in order; a client without a user throws before anything is logged. */
  function ListUsers(w: World): (r: Run)
    requires Registered(w)
    ensures r.crashed <==> exists k :: k in w.registry && w.sessions[k].user.None?
    ensures r.crashed ==> r.w == w
    ensures !r.crashed ==> r.w == AddLog(w, ConnectedUsers(Listing(w)))
  {
    if exists k :: k in w.registry && w.sessions[k].user.None? then Run(w, true)
    else Run(AddLog(w, ConnectedUsers(Listing(w))), false)
  }

  /** The lines of listusers, client by client in registry order. */
  function Listing(w: World): (listed: seq<(Option<string>, string, Option<string>)>)
    requires Registered(w) && forall k :: k in w.registry ==> w.sessions[k].user.Some?
    ensures |listed| == |w.registry|
    ensures forall i :: 0 <= i < |w.registry| ==> listed[i] == UserLine(w, w.registry[i])
  {
    seq(|w.registry|, i requires 0 <= i < |w.registry| => var k := w.registry[i]; assert k in w.registry; UserLine(w, k))
  }

  /** The names of the server command table, in its order. */
  function ServerNames(): (names: seq<string>)
    ensures |names| == |ServerOrder| && forall i :: 0 <= i < |ServerOrder| ==> names[i] == ServerEntry(ServerOrder[i]).name
  {
    seq(|ServerOrder|, i requires 0 <= i < |ServerOrder| => ServerEntry(ServerOrder[i]).name)
  }

  /** `commands` lists the nine console commands, in table order. */
  lemma ServerNamesListed()
    ensures ServerNames() == ["shutdown", "kick", "ban", "banbyip", "deleteuser", "deletecharacter", "move", "commands", "listusers"]
  {
  }

  // ------------------------------------------------------------ dispatcher

  /** The handler of a parsed console command; `move` was left empty in the code and does nothing. */
  function RunServer(w: World, c: ServerCommand, args: seq<string>): (r: Run)
    requires Registered(w) && |args| == ServerEntry(c).arity
    ensures c == MoveCharacter ==> r == Run(w, false)
    ensures c == ShutdownServer ==> r == Run(Scheduler.StartShutdown(w), false)
    ensures c == ListCommands ==> r == Run(AddLog(w, CommandNames(ServerNames())), false)
  {
    match c
    case ShutdownServer => Run(Scheduler.StartShutdown(w), false)
    case Kick => Kick(w, args[0], args[1])
    case Ban => Ban(w, args[0], args[1])
    case BanByIp => BanByIp(w, args[0], args[1])
    case DeleteUser => DeleteUser(w, args[0])
    case DeleteCharacter => DeleteCharacter(w, args[0])
    case MoveCharacter => Run(w, false)
    case ListCommands => Run(AddLog(w, CommandNames(ServerNames())), false)
    case ListUsers => ListUsers(w)
  }

  /**
   * executeServerCommand: an unknown word and a line short of arguments are
   * only logged; a parsed line runs its handler.
   */
  function ExecuteServer(w: World, whole: string): (r: Run)
    requires Registered(w)
    ensures ParseServer(whole).Unrecognized? ==> r == Run(AddLog(w, UnknownCommand), false)
    ensures ParseServer(whole).BadSyntax? ==> r == Run(AddLog(w, SyntaxHelp), false)
    ensures ParseServer(whole).Parsed? ==> r == RunServer(w, ParseServer(whole).command, ParseServer(whole).arguments)
  {
    match ParseServer(whole)
    case Unrecognized => Run(AddLog(w, UnknownCommand), false)
    case BadSyntax(_) => Run(AddLog(w, SyntaxHelp), false)
    case Parsed(c, args) => RunServer(w, c, args)
  }

  lemma OnlyShutdownIsShutdown()
    ensures forall k :: Matches(ServerEntry(k), "shutdown") <==> k == ShutdownServer
  {
  }

  /** The console line "shutdown" starts the countdown. */
  lemma ShutdownLineStartsCountdown(w: World)
    requires Registered(w)
    ensures ExecuteServer(w, "shutdown") == Run(Scheduler.StartShutdown(w), false)
  {
    ShutdownLineParses();
  }

  lemma ShutdownLineParses()
    ensures ParseServer("shutdown") == Parsed(ShutdownServer, [])
  {
    assert ' ' !in "shutdown";
    assert JavaText.Trim("shutdown") == "shutdown";
    OnlyShutdownIsShutdown();
    assert ShutdownServer in ServerOrder;
    ParseUnique(ServerOrder, ServerEntry, "shutdown", ShutdownServer, []);
  }
}
