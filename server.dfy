/**
 * The server process as an object. `Server.world` is everything the process
 * and its database hold; the methods run the loops of the handlers and of
 * the timer tasks one step at a time, and each is proved to end in the
 * state (or with the result) that the value-level definition of the same
 * step gives.
 */
module Host {
  import opened Wrappers
  import opened JavaText
  import opened World
  import opened Dispatch
  import Audience
  import Sessions
  import Scheduler
  import Admin
  import Execute
  import JavaMath

  // ------------------------------------------------------------ command lines

  /** The lookup loop over a command table: every entry is tried, and a later match replaces an earlier one. */
  method FindCommand<C>(order: seq<C>, entry: C -> Entry, word: string) returns (r: Option<C>)
    ensures r == LastMatch(order, entry, word)
  {
    r := None;
    for i := 0 to |order|
      invariant r == LastMatch(order[..i], entry, word)
    {
      assert order[..i + 1][..i] == order[..i];
      if Matches(entry(order[i]), word) {
        r := Some(order[i]);
      }
    }
    assert order[..|order|] == order;
  }

  /** The arguments read so far in front of those the rest of the line gives, or the syntax failure. */
  function Prefixed(read: seq<string>, r: Option<seq<string>>): (p: Option<seq<string>>)
    ensures p.Some? <==> r.Some?
    ensures p.Some? ==> |p.value| == |read| + |r.value| && p.value[..|read|] == read && p.value[|read|..] == r.value
  {
    match r
    case None => None
    case Some(more) => Some(read + more)
  }

  /**
   * The argument loop: slot i of an array of `n` gets the text up to the
   * next space, and `rest` what follows it, trimmed; the last slot gets the
   * whole remainder. A missing space stops it with the syntax message.
   */
  method ReadArguments(line: string, n: nat) returns (r: Option<seq<string>>)
    ensures r == ExtractArguments(line, n)
  {
    var arguments := new string[n];
    var rest := line;
    for i := 0 to n
      invariant ExtractArguments(line, n) == Prefixed(arguments[..i], ExtractArguments(rest, n - i))
    {
      ghost var before := arguments[..i];
      var piece, more := CutArgument(rest, n - i);
      if piece.None? {
        return None;
      }
      arguments[i] := piece.value;
      assert arguments[..i + 1] == before + [piece.value];
      PrefixedTwice(before, piece.value, ExtractArguments(more, n - i - 1));
      rest := more;
    }
    assert ExtractArguments(rest, 0) == Some([]) && arguments[..n] + [] == arguments[..];
    r := Some(arguments[..]);
  }

  /**
   * One pass of the argument loop with `m` arguments still wanted: the last
   * takes the whole trimmed rest; an earlier one the text up to the next
   * space, and none when there is no space.
   */
  method CutArgument(rest: string, m: nat) returns (piece: Option<string>, more: string)
    requires m >= 1
    ensures piece.None? ==> ExtractArguments(rest, m) == None
    ensures piece.Some? ==> ExtractArguments(rest, m) == Prefixed([piece.value], ExtractArguments(more, m - 1))
  {
    if m == 1 {
      piece, more := Some(Trim(rest)), rest;
      LastArgument(rest);
    } else {
      var k := IndexOf(rest, ' ');
      if k <= |rest| - 1 && k != -1 {
        piece, more := Some(Trim(rest[..k])), Trim(rest[k..]);
        ArgumentStep(rest, m);
      } else {
        piece, more := None, rest;
      }
    }
  }

  /** Cutting one argument off the rest of the line, when more than one is wanted and a space is there. */
  lemma ArgumentStep(rest: string, m: nat)
    requires m >= 2 && IndexOf(rest, ' ') != -1
    ensures var k := IndexOf(rest, ' ');
      ExtractArguments(rest, m) == Prefixed([Trim(rest[..k])], ExtractArguments(Trim(rest[k..]), m - 1))
  {
  }

  /** The last argument is the whole trimmed rest. */
  lemma LastArgument(rest: string)
    ensures ExtractArguments(rest, 1) == Prefixed([Trim(rest)], ExtractArguments(rest, 0))
  {
    assert [Trim(rest)] + [] == [Trim(rest)];
  }

  lemma PrefixedTwice(read: seq<string>, piece: string, r: Option<seq<string>>)
    ensures Prefixed(read, Prefixed([piece], r)) == Prefixed(read + [piece], r)
  {
    if r.Some? {
      assert read + ([piece] + r.value) == (read + [piece]) + r.value;
    }
  }

  /**
   * Reading a line against a table: the first word is looked up, and the
   * arguments of the command found are cut from the rest of the line.
   */
  method ParseLine<C>(order: seq<C>, entry: C -> Entry, whole: string) returns (p: Parsed<C>)
    ensures p == Parse(order, entry, whole)
  {
    var command, rest;
    var spaceIndex := IndexOf(whole, ' ');
    if spaceIndex >= 0 {
      command := whole[..spaceIndex];
      rest := Trim(whole[spaceIndex..]);
    } else {
      command := Trim(whole);
      rest := "";
    }
    assert SplitLine(whole) == Split(command, rest);
    var found := FindCommand(order, entry, command);
    match found
    case None =>
      p := Unrecognized;
    case Some(c) =>
      var arguments := ReadArguments(rest, entry(c).arity);
      match arguments
      case None => p := BadSyntax(c);
      case Some(args) => p := Parsed(c, args);
  }

  // ---------------------------------------------------------- client loops

  /** The handles kept so far in front of what the rest of the loop keeps. */
  function Joined(kept: seq<Handle>, s: Audience.Selection): (j: Audience.Selection)
    ensures j.faulted == s.faulted && |j.kept| == |kept| + |s.kept|
    ensures j.kept[..|kept|] == kept && j.kept[|kept|..] == s.kept
  {
    Audience.Selection(kept + s.kept, s.faulted)
  }

  /** A loop over the clients that keeps some and stops at the first one that throws. */
  method ScanClients(hs: seq<Handle>, v: Handle -> Audience.Verdict) returns (s: Audience.Selection)
    ensures s == Audience.Scan(hs, v)
  {
    var kept := [];
    for i := 0 to |hs|
      invariant Audience.Scan(hs, v) == Joined(kept, Audience.Scan(hs[i..], v))
    {
      ScanFrom(hs, v, i);
      match v(hs[i])
      case Fault =>
        return Audience.Selection(kept, true);
      case Skip =>
      case Keep =>
        JoinedKeep(kept, hs[i], Audience.Scan(hs[i + 1..], v));
        kept := kept + [hs[i]];
    }
    assert kept + [] == kept;
    s := Audience.Selection(kept, false);
  }

  /** The scan from index i, by what the loop finds at i. */
  lemma ScanFrom(hs: seq<Handle>, v: Handle -> Audience.Verdict, i: nat)
    requires i < |hs|
    ensures var rest := Audience.Scan(hs[i + 1..], v);
      Audience.Scan(hs[i..], v) == match v(hs[i])
        case Fault => Audience.Selection([], true)
        case Skip => rest
        case Keep => Audience.Selection([hs[i]] + rest.kept, rest.faulted)
  {
    assert hs[i..][0] == hs[i] && hs[i..][1..] == hs[i + 1..];
  }

  lemma JoinedKeep(kept: seq<Handle>, h: Handle, rest: Audience.Selection)
    ensures Joined(kept, Audience.Selection([h] + rest.kept, rest.faulted)) == Joined(kept + [h], rest)
  {
    assert kept + ([h] + rest.kept) == (kept + [h]) + rest.kept;
  }

  // --------------------------------------------------------- average level

  /** The summing loop of getAverageCharacterLevel. */
  method TotalLevel(levels: seq<int>) returns (total: int)
    ensures total == Scheduler.Sum(levels)
  {
    total := 0;
    for i := 0 to |levels|
      invariant total == Scheduler.Sum(levels[..i])
    {
      SumSnoc(levels, i);
      total := total + levels[i];
    }
    assert levels[..|levels|] == levels;
  }

  /** Summing one more element adds it. */
  lemma {:induction false} SumSnoc(xs: seq<int>, i: nat)
    requires i < |xs|
    ensures Scheduler.Sum(xs[..i + 1]) == Scheduler.Sum(xs[..i]) + xs[i]
  {
    if i == 0 {
      assert xs[..1] == [xs[0]] && xs[..1][1..] == [];
    } else {
      SumSnoc(xs[1..], i - 1);
      assert xs[..i + 1][1..] == xs[1..][..i];
      assert xs[..i][1..] == xs[1..][..i - 1];
    }
  }

  // ---------------------------------------------------------- connections

  /** The handles of a run of connections, each new and no two alike. */
  predicate Fresh(w: World, cs: seq<(Handle, string)>)
  {
    (forall i :: 0 <= i < |cs| ==> cs[i].0 !in w.sessions)
    && forall i, j :: 0 <= i < j < |cs| ==> cs[i].0 != cs[j].0
  }

  /** The accept loop over a run of connections, each a handle and the address it comes from. */
  function AcceptEach(w: World, cs: seq<(Handle, string)>): (w': World)
    requires Fresh(w, cs)
    decreases |cs|
  {
    if |cs| == 0 then w
    else
      var w1 := Sessions.Accept(w, cs[0].0, cs[0].1);
      assert Fresh(w1, cs[1..]) by {
        forall i | 0 <= i < |cs| - 1
          ensures cs[1..][i].0 !in w1.sessions
        {
          assert cs[1..][i] == cs[i + 1];
        }
      }
      AcceptEach(w1, cs[1..])
  }

  /** Accepting keeps every registered client backed by a record, and no client registered twice. */
  lemma {:induction false} AcceptEachKeepsRegistry(w: World, cs: seq<(Handle, string)>)
    requires Fresh(w, cs) && Registered(w)
    requires forall i, j :: 0 <= i < j < |w.registry| ==> w.registry[i] != w.registry[j]
    ensures var w' := AcceptEach(w, cs);
      Registered(w') && forall i, j :: 0 <= i < j < |w'.registry| ==> w'.registry[i] != w'.registry[j]
    decreases |cs|
  {
    if |cs| > 0 {
      var w1 := Sessions.Accept(w, cs[0].0, cs[0].1);
      Sessions.AcceptKeepsRegistry(w, cs[0].0, cs[0].1);
      AcceptEachKeepsRegistry(w1, cs[1..]);
    }
  }

  /** A connection from a banned address leaves the registry as it was. */
  lemma BannedAddressNotRegistered(w: World, h: Handle, address: string)
    requires h !in w.sessions && address in w.bannedAddresses
    ensures Sessions.Accept(w, h, address).registry == w.registry
    ensures h !in Sessions.Accept(w, h, address).sessions
  {
  }

  /** One pass of the spawner's loop, as the loop from index k sees it. */
  lemma SpawnStep(w: World, ds: seq<Scheduler.SpawnDraw>, k: nat)
    requires k < |ds| && forall i :: 0 <= i < |ds| ==> Scheduler.DrawInRange(ds[i], |w.mobClasses|)
    requires |ds| - k >= Scheduler.MobTarget - Scheduler.NumberOfMobs(w)
    requires Scheduler.NumberOfMobs(w) < Scheduler.MobTarget
    ensures var r := Scheduler.Spawn(w, ds[k]);
      (r.crashed ==> Scheduler.SpawnLoop(w, ds[k..]) == r)
      && (!r.crashed ==> (r.w.mobClasses == w.mobClasses
        && Scheduler.NumberOfMobs(r.w) == Scheduler.NumberOfMobs(w) + 1
        && Scheduler.SpawnLoop(w, ds[k..]) == Scheduler.SpawnLoop(r.w, ds[k + 1..])))
  {
    assert ds[k..][0] == ds[k] && ds[k..][1..] == ds[k + 1..];
  }

  /** Disconnecting the rest of a snapshot from index j: its first client, then the others. */
  lemma DisconnectStep(w: World, hs: seq<Handle>, j: nat)
    requires j < |hs| && forall h :: h in hs ==> h in w.sessions
    ensures Sessions.Disconnect(w, hs[j]).sessions.Keys == w.sessions.Keys
    ensures Scheduler.DisconnectAll(w, hs[j..]) == Scheduler.DisconnectAll(Sessions.Disconnect(w, hs[j]), hs[j + 1..])
  {
    assert hs[j..][0] == hs[j] && hs[j..][1..] == hs[j + 1..];
  }

  /** The outcome of a line a client typed: read against the client table, then carried out. */
  method ClientLine(w: World, h: Handle, whole: string, env: Env) returns (r: Run)
    requires h in w.sessions && EnvOk(env)
    ensures r == Execute.ExecuteLine(w, h, whole, env)
  {
    if w.sessions[h].character.None? {
      return Run(w, true);
    }
    var me := w.sessions[h].character.value;
    var p := ParseLine(ClientOrder, ClientEntry, whole);
    match p {
      case Unrecognized =>
        r := Execute.Refresh(Send(w, h, Display(NotRecognized)), h, me);
      case BadSyntax(_) =>
        r := Run(Send(w, h, Display(AdhereToSyntax)), false);
      case Parsed(c, args) =>
        r := Execute.Execute(w, h, me, c, args, whole, env);
    }
  }

  class Server {
    var world: World

    constructor (w: World)
      ensures world == w
    {
      world := w;
    }

    /** getAverageCharacterLevel: 3 with no characters, else the truncated mean. */
    method AverageCharacterLevel() returns (average: int)
      ensures average == Scheduler.AverageLevel(world)
    {
      var levels := Scheduler.CharacterLevels(world);
      var total := TotalLevel(levels);
      average := if |levels| == 0 then 3 else JavaMath.Quot(total, |levels|);
    }

    /** The accept loop of run(), over the connections that arrive. */
    method AcceptAll(cs: seq<(Handle, string)>)
      requires Fresh(world, cs)
      modifies this
      ensures world == AcceptEach(old(world), cs)
    {
      for i := 0 to |cs|
        invariant Fresh(world, cs[i..])
        invariant AcceptEach(old(world), cs) == AcceptEach(world, cs[i..])
      {
        assert cs[i..][0] == cs[i] && cs[i..][1..] == cs[i + 1..];
        world := Sessions.Accept(world, cs[i].0, cs[i].1);
      }
    }

    /** The console loop over the clients for kick, ban and banbyip. */
    method FindClients(p: Admin.Probe, arg: string) returns (s: Audience.Selection)
      requires Registered(world)
      ensures s == Admin.ScanFor(world, world.registry, p, arg)
    {
      var w := world;
      s := ScanClients(w.registry, k => Admin.ProbeVerdict(w, p, arg, k));
    }

    /** kick: the clients are scanned, the log written, and the last match put out. */
    method KickClient(name: string, why: string) returns (crashed: bool)
      requires Registered(world)
      modifies this
      ensures Run(world, crashed) == Admin.Kick(old(world), name, why)
    {
      var s := FindClients(Admin.CharacterName, name);
      world := Admin.Logged(world, Admin.KickLines(name, |s.kept|));
      if s.faulted {
        crashed := true;
      } else {
        world := Admin.PutOut(world, s.kept, name, KickedFor(why));
        crashed := false;
      }
    }

    /** executeCommand: one line a client typed, read against the client table and carried out. */
    method ExecuteClientLine(h: Handle, whole: string, env: Env) returns (crashed: bool)
      requires h in world.sessions && EnvOk(env)
      modifies this
      ensures Run(world, crashed) == Execute.ExecuteLine(old(world), h, whole, env)
    {
      var r := ClientLine(world, h, whole, env);
      world, crashed := r.w, r.crashed;
    }

    /** executeServerCommand: one console line, read and carried out. */
    method ExecuteConsoleLine(whole: string) returns (crashed: bool)
      requires Registered(world)
      modifies this
      ensures Run(world, crashed) == Admin.ExecuteServer(old(world), whole)
    {
      var p := ParseLine(ServerOrder, ServerEntry, whole);
      match p
      case Unrecognized =>
        world := AddLog(world, UnknownCommand);
        crashed := false;
      case BadSyntax(_) =>
        world := AddLog(world, SyntaxHelp);
        crashed := false;
      case Parsed(c, args) =>
        var r := Admin.RunServer(world, c, args);
        world := r.w;
        crashed := r.crashed;
    }

    // ------------------------------------------------------------ timers

    /** One run of the spawner task. */
    method RunSpawner(ds: seq<Scheduler.SpawnDraw>)
      requires forall i :: 0 <= i < |ds| ==> Scheduler.DrawInRange(ds[i], |world.mobClasses|)
      requires |ds| >= Scheduler.MobTarget - Scheduler.NumberOfMobs(world)
      modifies this
      ensures world == Scheduler.SpawnerTick(old(world), ds)
    {
      if !world.spawnerRunning {
        return;
      }
      var k := 0;
      ghost var w0 := world;
      while Scheduler.NumberOfMobs(world) < Scheduler.MobTarget
        invariant 0 <= k <= |ds|
        invariant |ds| - k >= Scheduler.MobTarget - Scheduler.NumberOfMobs(world)
        invariant world.mobClasses == w0.mobClasses
        invariant Scheduler.SpawnLoop(w0, ds) == Scheduler.SpawnLoop(world, ds[k..])
        decreases |ds| - k
      {
        SpawnStep(world, ds, k);
        var r := Scheduler.Spawn(world, ds[k]);
        if r.crashed {
          world := Scheduler.TimerDied(r.w);
          return;
        }
        world := r.w;
        k := k + 1;
      }
    }

    /** One run of the mover task: one visit per mob counted at the start. */
    method RunMover(ds: seq<Scheduler.MoveDraw>)
      requires |ds| == Scheduler.NumberOfMobs(world)
      modifies this
      ensures world == Scheduler.MoverTick(old(world), ds)
    {
      if !world.moverRunning {
        return;
      }
      for i := 0 to |ds|
        invariant Scheduler.MoveLoop(old(world), ds, 0) == Scheduler.MoveLoop(world, ds, i)
      {
        var r := Scheduler.MoveMob(world, i, ds[i]);
        if r.crashed {
          world := Scheduler.TimerDied(r.w);
          return;
        }
        world := r.w;
      }
    }

    /** The countdown's last run: the clients are copied out first, then each is disconnected. */
    method DisconnectEveryone()
      requires Registered(world)
      modifies this
      ensures world == Scheduler.DisconnectAll(old(world), old(world.registry))
    {
      var hs := world.registry;
      var toDisconnect := Snapshot(hs);
      ghost var w0 := world;
      for j := 0 to toDisconnect.Length
        invariant toDisconnect[..] == hs
        invariant forall h :: h in hs ==> h in world.sessions
        invariant Scheduler.DisconnectAll(w0, hs) == Scheduler.DisconnectAll(world, hs[j..])
      {
        DisconnectStep(world, hs, j);
        world := Sessions.Disconnect(world, toDisconnect[j]);
      }
    }

    /** The copy of the clients' keys into a fresh array. */
    static method Snapshot(hs: seq<Handle>) returns (a: array<Handle>)
      ensures fresh(a) && a[..] == hs
    {
      a := new Handle[|hs|];
      for i := 0 to |hs|
        invariant a[..i] == hs[..i]
      {
        a[i] := hs[i];
      }
    }

    /** One run of countdown task `j`. */
    method CountdownRun(j: nat)
      requires j < |world.countdowns| && Registered(world)
      modifies this
      ensures world == Scheduler.CountdownTick(old(world), j)
    {
      if world.halted {
        return;
      }
      if world.countdowns[j] == 10 {
        DisconnectEveryone();
        world := world.(halted := true);
      } else {
        world := Scheduler.Announce(world, j);
      }
    }
  }
}
