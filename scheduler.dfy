/**
 * The timer tasks of the server: the mob spawner, the mob mover and the
 * shutdown countdown, each as the body of one run. Their random draws are
 * parameters in the ranges the code draws them from. The spawner and the
 * mover share one java.util.Timer; an exception in either kills that
 * timer's thread, and neither runs again.
 */
module Scheduler {
  import opened Wrappers
  import opened World
  import opened Audience
  import JavaMath
  import Sessions

  /** The mob count the spawner fills up to. */
  const MobTarget := 15

  /** getNumberOfMobs: the rows of the mob table. */
  function NumberOfMobs(w: World): nat
  {
    |w.mobOrder|
  }

  /** An exception in a task of the shared timer: the spawner and the mover stop for good. */
  function TimerDied(w: World): (w': World)
    ensures w' == w.(spawnerRunning := false, moverRunning := false)
  {
    w.(spawnerRunning := false, moverRunning := false)
  }

  // ------------------------------------------------------------- shutdown

  /** shutdown(): both mob tasks are cancelled and a countdown task starts at 0. */
  function StartShutdown(w: World): (w': World)
    ensures !w'.spawnerRunning && !w'.moverRunning
    ensures |w'.countdowns| == |w.countdowns| + 1 && w'.countdowns[|w.countdowns|] == 0
    ensures w' == w.(spawnerRunning := false, moverRunning := false, countdowns := w'.countdowns)
    ensures w'.countdowns[..|w.countdowns|] == w.countdowns
  {
    w.(spawnerRunning := false, moverRunning := false, countdowns := w.countdowns + [0])
  }

  /** Disconnect every client of a snapshot of the registry, in order. */
  function DisconnectAll(w: World, hs: seq<Handle>): (w': World)
    requires forall h :: h in hs ==> h in w.sessions
    ensures w'.sessions.Keys == w.sessions.Keys
    ensures w' == w.(registry := w'.registry, sessions := w'.sessions, outbox := w'.outbox)
    decreases |hs|
  {
    if |hs| == 0 then w
    else DisconnectAll(Sessions.Disconnect(w, hs[0]), hs[1..])
  }

  /** After disconnecting a snapshot, none of it is registered or alive, and everyone else is untouched. */
  lemma {:induction false} DisconnectAllEnds(w: World, hs: seq<Handle>)
    requires forall h :: h in hs ==> h in w.sessions
    ensures var w' := DisconnectAll(w, hs);
      (forall h :: h in w'.registry <==> h in w.registry && h !in hs)
      && (forall h :: h in hs ==> !w'.sessions[h].alive)
      && (forall h :: h in w.sessions && h !in hs ==> w'.sessions[h] == w.sessions[h])
    decreases |hs|
  {
    if |hs| > 0 {
      var w1 := Sessions.Disconnect(w, hs[0]);
      DisconnectAllEnds(w1, hs[1..]);
    }
  }

  /**
   * One run of countdown task `j`: at count 10 every client is disconnected
   * and the process exits; before that, everyone hears how many seconds
   * remain, the log records it, and the count goes up by one.
   */
  function CountdownTick(w: World, j: nat): (w': World)
    requires j < |w.countdowns| && Registered(w)
    ensures Registered(w') && j < |w'.countdowns|
    ensures w.halted ==> w' == w
    ensures !w.halted && w.countdowns[j] == 10 ==> Exited(w, w')
    ensures !w.halted && w.countdowns[j] != 10 ==> Announced(w, j, w')
  {
    if w.halted then w
    else if w.countdowns[j] == 10 then Halt(w)
    else Announce(w, j)
  }

  /** The last run: every client disconnected, the process gone. */
  predicate Exited(w: World, w': World)
  {
    w'.halted && (forall h :: h !in w'.registry)
    && forall h :: h in w.registry ==> h in w'.sessions && !w'.sessions[h].alive
  }

  function Halt(w: World): (w': World)
    requires Registered(w)
    ensures Exited(w, w') && Registered(w') && w'.countdowns == w.countdowns
  {
    DisconnectAllEnds(w, w.registry);
    DisconnectAll(w, w.registry).(halted := true)
  }

  /** A run before the last: the remaining seconds go to everyone and to the log. */
  predicate Announced(w: World, j: nat, w': World)
    requires j < |w.countdowns|
  {
    var left := 10 - w.countdowns[j] as int;
    w' == w.(countdowns := w.countdowns[j := w.countdowns[j] + 1], log := w.log + [Countdown(left)], outbox := w'.outbox)
    && w.outbox <= w'.outbox && Sent(w, w') == Broadcast(w.registry, Display(ShuttingDown(left)))
  }

  function Announce(w: World, j: nat): (w': World)
    requires j < |w.countdowns|
    ensures Announced(w, j, w')
  {
    var left := 10 - w.countdowns[j] as int;
    var w1 := NotifyAll(w, Display(ShuttingDown(left)));
    w1.(log := w1.log + [Countdown(left)], countdowns := w.countdowns[j := w.countdowns[j] + 1])
  }

  /** `n` runs of countdown task `j`. */
  function Ticks(w: World, j: nat, n: nat): (w': World)
    requires j < |w.countdowns| && Registered(w)
    ensures j < |w'.countdowns| && Registered(w')
    decreases n
  {
    if n == 0 then w
    else
      var w1 := CountdownTick(w, j);
      Ticks(w1, j, n - 1)
  }

  /** The countdown's log lines for counts from, from + 1, ...: 10 - from seconds, then fewer. */
  function CountdownLines(from: int, n: nat): (ls: seq<LogLine>)
    ensures |ls| == n && forall i :: 0 <= i < n ==> ls[i] == Countdown(10 - (from + i))
  {
    seq(n, i requires 0 <= i < n => Countdown(10 - (from + i)))
  }

  /**
   * Counting down: `n` runs of a task at count k (with k + n <= 10) advance
   * it to k + n, log the seconds 10 - k down to 11 - k - n, and do not halt.
   */
  lemma {:induction false} CountdownCounts(w: World, j: nat, n: nat)
    requires j < |w.countdowns| && Registered(w) && !w.halted
    requires w.countdowns[j] + n <= 10
    ensures var w' := Ticks(w, j, n);
      !w'.halted && w'.countdowns[j] == w.countdowns[j] + n
      && w'.log == w.log + CountdownLines(w.countdowns[j], n)
      && w'.registry == w.registry
    decreases n
  {
    if n > 0 {
      var w1 := CountdownTick(w, j);
      TickAnnounces(w, j);
      CountdownCounts(w1, j, n - 1);
      assert Ticks(w, j, n) == Ticks(w1, j, n - 1);
      LinesUnfold(w.log, w.countdowns[j], n);
    }
  }

  /** The first line of a countdown, then the rest. */
  lemma LinesUnfold(log: seq<LogLine>, from: int, n: nat)
    requires n > 0
    ensures (log + [Countdown(10 - from)]) + CountdownLines(from + 1, n - 1) == log + CountdownLines(from, n)
  {
    assert forall i :: 0 <= i < n ==> CountdownLines(from, n)[i] == ([Countdown(10 - from)] + CountdownLines(from + 1, n - 1))[i];
  }

  /** A run before the count reaches 10 counts one up and logs the seconds left. */
  lemma TickAnnounces(w: World, j: nat)
    requires j < |w.countdowns| && Registered(w) && !w.halted && w.countdowns[j] < 10
    ensures var w1 := CountdownTick(w, j);
      !w1.halted && w1.countdowns[j] == w.countdowns[j] + 1 && w1.registry == w.registry
      && w1.log == w.log + [Countdown(10 - w.countdowns[j] as int)]
  {
    assert Announced(w, j, CountdownTick(w, j));
  }

  /** After shutdown, ten runs announce 10 down to 1 seconds, and the eleventh ends the server. */
  lemma ShutdownAfterElevenTicks(w: World)
    requires Registered(w) && !w.halted
    ensures var w0 := StartShutdown(w);
      var j := |w.countdowns|;
      !Ticks(w0, j, 10).halted && Ticks(w0, j, 11).halted
      && Ticks(w0, j, 10).log == w.log + CountdownLines(0, 10)
  {
    var w0 := StartShutdown(w);
    var j := |w.countdowns|;
    CountdownCounts(w0, j, 10);
    var w10 := Ticks(w0, j, 10);
    assert Ticks(w0, j, 11) == Ticks(CountdownTick(w0, j), j, 10);
    TicksSplit(w0, j, 10);
  }

  /** Ticking n + 1 times is ticking n times and then once more. */
  lemma {:induction false} TicksSplit(w: World, j: nat, n: nat)
    requires j < |w.countdowns| && Registered(w)
    ensures Ticks(w, j, n + 1) == CountdownTick(Ticks(w, j, n), j)
    decreases n
  {
    var w1 := CountdownTick(w, j);
    if n == 0 {
      assert Ticks(w1, j, 0) == w1;
    } else {
      TicksSplit(w1, j, n - 1);
    }
  }

  // ------------------------------------------------------- average level

  /** getCharacterLevels: the level of every character row, in table order. */
  function CharacterLevels(w: World): (ls: seq<int>)
    ensures |ls| <= |w.characterOrder|
  {
    LevelsAmong(w.characters, w.characterOrder)
  }

  function LevelsAmong(cs: map<int, CharacterRow>, order: seq<int>): (ls: seq<int>)
    ensures |ls| <= |order|
  {
    if |order| == 0 then []
    else (if order[0] in cs then [cs[order[0]].level] else []) + LevelsAmong(cs, order[1..])
  }

  /** Every level listed is the level of some character row, so bounds on the rows bound the list. */
  lemma {:induction false} LevelsBounded(cs: map<int, CharacterRow>, order: seq<int>, lo: int, hi: int)
    requires forall id :: id in cs ==> lo <= cs[id].level <= hi
    ensures forall i :: 0 <= i < |LevelsAmong(cs, order)| ==> lo <= LevelsAmong(cs, order)[i] <= hi
  {
    if |order| > 0 {
      LevelsBounded(cs, order[1..], lo, hi);
    }
  }

  function Sum(xs: seq<int>): int
  {
    if |xs| == 0 then 0 else xs[0] + Sum(xs[1..])
  }

  /** A lower bound on every level bounds the sum from below. */
  lemma {:induction false} SumAtLeast(xs: seq<int>, lo: int)
    requires forall i :: 0 <= i < |xs| ==> lo <= xs[i]
    ensures |xs| * lo <= Sum(xs)
  {
    if |xs| > 0 {
      SumAtLeast(xs[1..], lo);
      assert |xs| * lo == (|xs| - 1) * lo + lo;
    }
  }

  /** An upper bound on every level bounds the sum from above. */
  lemma {:induction false} SumAtMost(xs: seq<int>, hi: int)
    requires forall i :: 0 <= i < |xs| ==> xs[i] <= hi
    ensures Sum(xs) <= |xs| * hi
  {
    if |xs| > 0 {
      SumAtMost(xs[1..], hi);
      assert |xs| * hi == (|xs| - 1) * hi + hi;
    }
  }

  /** getAverageCharacterLevel: 3 with no characters, else the truncated mean of all their levels. */
  function AverageLevel(w: World): int
  {
    var ls := CharacterLevels(w);
    if |ls| == 0 then 3 else JavaMath.Quot(Sum(ls), |ls|)
  }

  /** When every character's level lies in lo..hi (lo >= 0), so does the average, unless there are none. */
  lemma AverageWithinLevels(w: World, lo: nat, hi: int)
    requires forall id :: id in w.characters ==> lo <= w.characters[id].level <= hi
    ensures |CharacterLevels(w)| > 0 ==> lo <= AverageLevel(w) <= hi
    ensures |CharacterLevels(w)| == 0 ==> AverageLevel(w) == 3
  {
    var ls := CharacterLevels(w);
    if |ls| > 0 {
      LevelsBounded(w.characters, w.characterOrder, lo, hi);
      SumAtLeast(ls, lo);
      SumAtMost(ls, hi);
      JavaMath.QuotBetween(Sum(ls), |ls|, lo, hi);
    }
  }

  // ------------------------------------------------------------- spawner

  /**
   * One spawn's draws: the uid (any int), the mob class and the adjective
   * (whose enumeration is not part of this model, so its name is drawn
   * directly), the room offset below 28, and the level's spread below 3
   * with its direction.
   */
  datatype SpawnDraw = SpawnDraw(uid: int, classIndex: nat, adjective: string, roomOffset: nat, raise: bool, spread: nat)

  /** The draws lie in the ranges nextInt gives them: below the class count, 28 and 3. */
  predicate SpawnDrawOk(w: World, d: SpawnDraw)
  {
    DrawInRange(d, |w.mobClasses|)
  }

  predicate DrawInRange(d: SpawnDraw, classes: int)
  {
    d.classIndex < classes && d.roomOffset < 28 && d.spread < 3
  }

  /** The new mob's level: the average moved by the spread, and never below 1. */
  function MobLevel(average: int, raise: bool, spread: nat): (l: int)
    ensures l >= 1
    ensures raise ==> l == if average + spread < 1 then 1 else average + spread
    ensures !raise ==> l == if average - spread < 1 then 1 else average - spread
    ensures l > 1 ==> average - spread <= l <= average + spread
  {
    var l := if raise then average + spread else average - spread;
    if l < 1 then 1 else l
  }

  /** One pass of the spawner's loop: a fresh mob of the drawn class in a room 2..29. */
  function Spawn(w: World, d: SpawnDraw): (r: Run)
    requires SpawnDrawOk(w, d)
    ensures r.crashed <==> w.mobClasses[d.classIndex] !in w.species
    ensures r.crashed ==> r.w == w
    ensures !r.crashed ==> (
      var sp := w.mobClasses[d.classIndex];
      d.uid in r.w.mobs && var m := r.w.mobs[d.uid];
      r.w == w.(mobs := w.mobs[d.uid := m], mobOrder := w.mobOrder + [d.uid],
                npcUIDs := w.npcUIDs + [d.uid], log := w.log + [SpawnedMob(d.uid, m.name, m.location)])
      && m.species == sp && m.hp == w.species[sp].hp && m.name == d.adjective + " " + w.species[sp].name
      && 2 <= m.location <= 29 && m.level == MobLevel(AverageLevel(w), d.raise, d.spread)
      && !m.attacked)
  {
    var sp := w.mobClasses[d.classIndex];
    if sp !in w.species then Run(w, true)
    else
      var s := w.species[sp];
      var m := MobRow(sp, d.adjective + " " + s.name, s.hp, MobLevel(AverageLevel(w), d.raise, d.spread), 2 + d.roomOffset, false, 0);
      Run(w.(mobs := w.mobs[d.uid := m], mobOrder := w.mobOrder + [d.uid],
             npcUIDs := w.npcUIDs + [d.uid], log := w.log + [SpawnedMob(d.uid, m.name, m.location)]), false)
  }

  /** The spawner's loop: spawn while there are fewer than 15 mobs. */
  function SpawnLoop(w: World, ds: seq<SpawnDraw>): (r: Run)
    requires forall i :: 0 <= i < |ds| ==> DrawInRange(ds[i], |w.mobClasses|)
    requires |ds| >= MobTarget - NumberOfMobs(w)
    ensures !r.crashed ==> NumberOfMobs(r.w) == if NumberOfMobs(w) >= MobTarget then NumberOfMobs(w) else MobTarget
    ensures r.w.characters == w.characters && r.w.sessions == w.sessions && r.w.registry == w.registry
    ensures r.w.mobClasses == w.mobClasses && r.w.species == w.species && r.w.outbox == w.outbox
    ensures w.mobOrder <= r.w.mobOrder && w.npcUIDs <= r.w.npcUIDs
    ensures |r.w.npcUIDs| - |w.npcUIDs| == |r.w.mobOrder| - |w.mobOrder|
    decreases |ds|
  {
    if NumberOfMobs(w) >= MobTarget then Run(w, false)
    else
      var r1 := Spawn(w, ds[0]);
      if r1.crashed then r1
      else
        assert r1.w.mobClasses == w.mobClasses && NumberOfMobs(r1.w) == NumberOfMobs(w) + 1;
        assert |r1.w.mobClasses| == |w.mobClasses|;
        SpawnLoop(r1.w, ds[1..])
  }

  /** One run of the spawner task; a crash kills the shared timer. */
  function SpawnerTick(w: World, ds: seq<SpawnDraw>): (r: World)
    requires forall i :: 0 <= i < |ds| ==> DrawInRange(ds[i], |w.mobClasses|)
    requires |ds| >= MobTarget - NumberOfMobs(w)
  {
    if !w.spawnerRunning then w
    else
      var r := SpawnLoop(w, ds);
      if r.crashed then TimerDied(r.w) else r.w
  }

  /** Every mob the spawner adds is new in npcUIDs' tail, lies in rooms 2..29 and has level at least 1. */
  lemma {:induction false} SpawnedMobsPlaced(w: World, ds: seq<SpawnDraw>)
    requires forall i :: 0 <= i < |ds| ==> DrawInRange(ds[i], |w.mobClasses|)
    requires |ds| >= MobTarget - NumberOfMobs(w)
    ensures var r := SpawnLoop(w, ds);
      forall u :: u in r.w.mobs && (u !in w.mobs || r.w.mobs[u] != w.mobs[u]) ==>
        2 <= r.w.mobs[u].location <= 29 && r.w.mobs[u].level >= 1 && !r.w.mobs[u].attacked
    decreases |ds|
  {
    if NumberOfMobs(w) < MobTarget {
      var r1 := Spawn(w, ds[0]);
      if !r1.crashed {
        SpawnedMobsPlaced(r1.w, ds[1..]);
      }
    }
  }

  // --------------------------------------------------------------- mover

  /** An exit the mover accepts: not "no exit" (0) and not the Vault entrance (1). */
  predicate ValidExit(room: int)
  {
    room != 0 && room != 1
  }

  /** The order of the switch's cases. */
  function CaseOrder(): seq<Direction>
  {
    [North, East, South, West]
  }

  /**
   * The mover's switch: case `start` falls through to the later cases until
   * an exit is valid; start 4 (the fifth draw) matches no case.
   */
  function ChooseExit(room: RoomRow, start: nat): (r: Option<Direction>)
    ensures r.Some? ==> start < 4 && ValidExit(Exit(room, r.value))
    ensures r.Some? ==> exists j :: (start <= j < 4 && CaseOrder()[j] == r.value
      && forall k :: start <= k < j ==> !ValidExit(Exit(room, CaseOrder()[k])))
    ensures r.None? <==> forall k :: start <= k < 4 ==> !ValidExit(Exit(room, CaseOrder()[k]))
    decreases 4 - start
  {
    if start >= 4 then None
    else if ValidExit(Exit(room, CaseOrder()[start])) then Some(CaseOrder()[start])
    else ChooseExit(room, start + 1)
  }

  /** The mover's draws for one mob: whether it moves, and the start case 0..4. */
  datatype MoveDraw = MoveDraw(moves: bool, start: nat)

  /**
   * notifyPlayers, after the mob's row has moved: the sessions in the old
   * room, then those in the new one, online or not. Both loops throw at the
   * same session (one with a missing row), so the second never throws.
   */
  function Relocate(w: World, uid: int, from: int, d: Direction, to: int): (r: Run)
    requires uid in w.mobs
    ensures r.crashed == RoomAudience(w, from).faulted
    ensures r.w == w.(mobs := w.mobs[uid := w.mobs[uid].(location := to)], outbox := r.w.outbox)
    ensures w.outbox <= r.w.outbox
    ensures r.crashed ==> Sent(w, r.w) == Broadcast(RoomAudience(w, from).kept, Display(MobLeft(uid, d)))
    ensures !r.crashed ==> (Sent(w, r.w) ==
      Broadcast(RoomAudience(w, from).kept, Display(MobLeft(uid, d))) + Broadcast(RoomAudience(w, to).kept, Display(MobEntered(uid))))
  {
    var left := RoomAudience(w, from);
    var entered := RoomAudience(w, to);
    var moved := w.(mobs := w.mobs[uid := w.mobs[uid].(location := to)]);
    if left.faulted then Run(moved.(outbox := w.outbox + Broadcast(left.kept, Display(MobLeft(uid, d)))), true)
    else
      var sent := Broadcast(left.kept, Display(MobLeft(uid, d))) + Broadcast(entered.kept, Display(MobEntered(uid)));
      var w' := moved.(outbox := w.outbox + sent);
      assert w'.outbox[|w.outbox|..] == sent;
      Run(w', false)
  }

  /** The mover's visit to the i-th mob (the attack it then schedules is not part of it). */
  function MoveMob(w: World, i: nat, d: MoveDraw): (r: Run)
    ensures r.w == w.(mobs := r.w.mobs, outbox := r.w.outbox) && w.outbox <= r.w.outbox
    ensures r.w.mobs.Keys == w.mobs.Keys
    ensures forall u :: u in w.mobs ==>
      r.w.mobs[u] == w.mobs[u] || r.w.mobs[u] == w.mobs[u].(location := r.w.mobs[u].location)
    ensures !d.moves ==> r == Run(w, false)
    ensures d.moves && i >= |w.npcUIDs| ==> r.crashed
    ensures forall u :: u in w.mobs && r.w.mobs[u] != w.mobs[u] ==>
      d.moves && i < |w.npcUIDs| && u == w.npcUIDs[i] && !w.mobs[u].attacked && w.mobs[u].location in w.rooms
      && ChooseExit(w.rooms[w.mobs[u].location], d.start).Some?
      && r.w.mobs[u].location == Exit(w.rooms[w.mobs[u].location], ChooseExit(w.rooms[w.mobs[u].location], d.start).value)
  {
    if !d.moves then Run(w, false)
    else if i >= |w.npcUIDs| then Run(w, true)
    else
      var uid := w.npcUIDs[i];
      if uid !in w.mobs then Run(w, true)
      else if w.mobs[uid].attacked then Run(w, false)
      else
        var from := w.mobs[uid].location;
        match RoomOf(w, from)
        case None => Run(w, true)
        case Some(room) =>
          match ChooseExit(room, d.start)
          case None => Run(w, false)
          case Some(dir) => Relocate(w, uid, from, dir, Exit(room, dir))
  }

  /** The mover's loop from the i-th mob on; it stops at the first exception. */
  function MoveLoop(w: World, ds: seq<MoveDraw>, i: nat): (r: Run)
    requires i <= |ds|
    ensures r.w == w.(mobs := r.w.mobs, outbox := r.w.outbox) && w.outbox <= r.w.outbox
    ensures r.w.mobs.Keys == w.mobs.Keys
    ensures forall u :: u in w.mobs ==> r.w.mobs[u].(location := w.mobs[u].location) == w.mobs[u]
    ensures forall u :: u in w.mobs && w.mobs[u].attacked ==> r.w.mobs[u] == w.mobs[u]
    ensures forall u :: u in w.mobs ==> r.w.mobs[u] == w.mobs[u] || ValidExit(r.w.mobs[u].location)
    decreases |ds| - i
  {
    if i == |ds| then Run(w, false)
    else
      var r1 := MoveMob(w, i, ds[i]);
      if r1.crashed then r1 else MoveLoop(r1.w, ds, i + 1)
  }

  /** One run of the mover task: one draw per mob the table held when it started. */
  function MoverTick(w: World, ds: seq<MoveDraw>): (w': World)
    requires |ds| == NumberOfMobs(w)
    ensures w' == w.(mobs := w'.mobs, outbox := w'.outbox, spawnerRunning := w'.spawnerRunning, moverRunning := w'.moverRunning)
  {
    if !w.moverRunning then w
    else
      var r := MoveLoop(w, ds, 0);
      if r.crashed then TimerDied(r.w) else r.w
  }

  /** A mover run in which no mob moves (every draw says stay) changes nothing. */
  lemma {:induction false} StillMobsStay(w: World, ds: seq<MoveDraw>, i: nat)
    requires i <= |ds|
    requires forall k :: i <= k < |ds| ==> !ds[k].moves
    ensures MoveLoop(w, ds, i) == Run(w, false)
    decreases |ds| - i
  {
    if i < |ds| {
      StillMobsStay(w, ds, i + 1);
    }
  }

  /** The mover throws when npcUIDs is shorter than the mob table and the last mob's draw says move. */
  lemma ShortUidListKillsMover(w: World, ds: seq<MoveDraw>)
    requires w.moverRunning && |ds| == NumberOfMobs(w) && |w.npcUIDs| < |ds|
    requires forall k :: 0 <= k < |ds| - 1 ==> !ds[k].moves
    requires ds[|ds| - 1].moves
    ensures !MoverTick(w, ds).moverRunning && !MoverTick(w, ds).spawnerRunning
  {
    var n := |ds| - 1;
    StillMobsStayUpTo(w, ds, 0, n);
  }

  /** Draws that all say stay, up to index n, leave the loop at index n with the world unchanged. */
  lemma {:induction false} StillMobsStayUpTo(w: World, ds: seq<MoveDraw>, i: nat, n: nat)
    requires i <= n < |ds|
    requires forall k :: i <= k < n ==> !ds[k].moves
    ensures MoveLoop(w, ds, i) == MoveLoop(w, ds, n)
    decreases n - i
  {
    if i < n {
      StillMobsStayUpTo(w, ds, i + 1, n);
    }
  }
}
