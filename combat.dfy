/**
 * Fighting mobs: the player's `attack` (claim the mob, strike, take the
 * mob's blow back) and the mob's own attack that a mob scheduled on
 * entering a room delivers. Damage, defense and maximum hit points come
 * from floating-point class formulas and random draws: they are the `Env`
 * of the command.
 */
module Combat {
  import opened Wrappers
  import opened World
  import opened Audience
  import JavaMath
  import Levels

  /** The mob's blow when the player attacks: damage less defense, at least 1. */
  function StrikeBack(env: Env): (d: int)
    ensures d >= 1
    ensures env.mobDamage - env.defense >= 1 ==> d == env.mobDamage - env.defense
    ensures env.mobDamage - env.defense < 1 ==> d == 1
  {
    var d := env.mobDamage - env.defense;
    if d < 1 then 1 else d
  }

  /** The mob's blow when the mob attacks: damage less defense, or the mob's level when that is below 1. */
  function Ambush(env: Env, mobLevel: int): (d: int)
    ensures env.mobDamage - env.defense >= 1 ==> d == env.mobDamage - env.defense
    ensures env.mobDamage - env.defense < 1 ==> d == mobLevel
  {
    var d := env.mobDamage - env.defense;
    if d < 1 then mobLevel else d
  }

  /** The two floors differ: a weak mob's blow is 1 in the player's fight and its level in its own. */
  lemma FloorsDiffer(env: Env, mobLevel: int)
    requires env.mobDamage - env.defense < 1 && mobLevel != 1
    ensures StrikeBack(env) != Ambush(env, mobLevel)
  {
  }

  /** nextInt(mobXP) as the fraction num/den of mobXP: from 0 up to mobXP - 1. */
  function CapsDrop(env: Env, xp: int): (c: int)
    requires EnvOk(env) && xp > 0
    ensures 0 <= c < xp
  {
    var c := env.capsNum * xp / env.capsDen;
    FractionBelow(env.capsNum, env.capsDen, xp);
    c
  }

  lemma FractionBelow(num: nat, den: nat, xp: int)
    requires num < den && xp > 0
    ensures 0 <= num * xp / den < xp
  {
    var c := num * xp / den;
    assert c * den <= num * xp;
    if c >= xp {
      JavaMath.MulMonotone(xp, c, den);
      JavaMath.MulMonotone(num + 1, den, xp);
      assert false;
    }
  }

  // ----------------------------------------------------------------- attack

  /** A mob the character may strike: it has a row and no other character has claimed it. The attack handler finds it among the mobs of the room. */
  predicate MayStrike(w: World, me: int, uid: int)
  {
    uid in w.mobs && (!w.mobs[uid].attacked || w.mobs[uid].attacker == me)
  }

  /** setMobAttacked(uid, me, true). */
  function Claim(w: World, uid: int, me: int): (w': World)
    requires uid in w.mobs
    ensures w' == w.(mobs := w.mobs[uid := w.mobs[uid].(attacked := true, attacker := me)])
  {
    w.(mobs := w.mobs[uid := w.mobs[uid].(attacked := true, attacker := me)])
  }

  /**
   * The `attack` handler: the last mob of the room with that name is the
   * target. A mob another character fights is left alone; an unclaimed one
   * is claimed before the first blow.
   */
  function Attack(w: World, h: Handle, me: int, arg: string, env: Env): (r: Step)
    requires Actor(w, h, me) && EnvOk(env)
    ensures r.follow == Done
    ensures LastNamed(w, MobsIn(w, LocationOf(w, me)), arg).None? ==>
      !r.crashed && OnlySent(w, r.w) && Sent(w, r.w) == [Delivery(h, Display(NoSuchMob(arg)))]
    ensures (var u := LastNamed(w, MobsIn(w, LocationOf(w, me)), arg);
      u.Some? && w.mobs[u.value].attacked && w.mobs[u.value].attacker != me ==>
      !r.crashed && OnlySent(w, r.w)
      && Sent(w, r.w) == [Delivery(h, Display(AlreadyFighting(arg, w.mobs[u.value].attacker)))])
    ensures (var u := LastNamed(w, MobsIn(w, LocationOf(w, me)), arg);
      u.Some? && MayStrike(w, me, u.value) ==> r == DoAttack(Claim(w, u.value, me), h, me, u.value, arg, env))
  {
    match LastNamed(w, MobsIn(w, LocationOf(w, me)), arg)
    case None => Reply(w, h, NoSuchMob(arg))
    case Some(uid) =>
      var m := w.mobs[uid];
      if m.attacked && m.attacker != me then Reply(w, h, AlreadyFighting(arg, m.attacker))
      else
        assert m.attacked ==> Claim(w, uid, me) == w;
        DoAttack(Claim(w, uid, me), h, me, uid, arg, env)
  }

  /** The blow lands on a mob with hit points to spare. */
  predicate Survives(w: World, uid: int, env: Env)
    requires uid in w.mobs
  {
    w.mobs[uid].hp - env.characterDamage > 0
  }

  /** The experience the kill is worth per level of the mob: the species' value. */
  function ExpValue(w: World, uid: int): int
    requires uid in w.mobs && w.mobs[uid].species in w.species
  {
    w.species[w.mobs[uid].species].expValue
  }

  /** The fight throws: no species row for the mob, or a kill of a uid npcUIDs lacks, or a worthless kill. */
  predicate AttackCrashes(w: World, uid: int, env: Env)
    requires uid in w.mobs
  {
    w.mobs[uid].species !in w.species
    || (!Survives(w, uid, env) && (uid !in w.npcUIDs || ExpValue(w, uid) <= 0))
  }

  /** doAttack, on a mob already claimed by the character. */
  function DoAttack(w: World, h: Handle, me: int, uid: int, arg: string, env: Env): (r: Step)
    requires Actor(w, h, me) && uid in w.mobs && EnvOk(env)
    ensures r.follow == Done
    ensures r.crashed <==> AttackCrashes(w, uid, env)
    ensures !r.crashed && !Survives(w, uid, env) ==> Slain(w, h, me, uid, arg, env, r.w)
    ensures !r.crashed && Survives(w, uid, env) ==> Wounded(w, h, me, uid, env, r.w)
  {
    if w.mobs[uid].species !in w.species then Abort(w)
    else if Survives(w, uid, env) then Finish(Wound(w, h, me, uid, env))
    else if uid !in w.npcUIDs then Abort(w)
    else if ExpValue(w, uid) <= 0 then Abort(Rewarded(w, me, uid))
    else Finish(Kill(w, h, me, uid, arg, env))
  }

  /** The experience is written before nextInt(mobXP) throws on a worthless mob. */
  function Rewarded(w: World, me: int, uid: int): (w': World)
    requires me in w.characters && uid in w.mobs && w.mobs[uid].species in w.species
  {
    var row := w.characters[me];
    w.(npcUIDs := RemoveFirst(w.npcUIDs, uid),
       characters := w.characters[me := row.(experience := row.experience + ExpValue(w, uid) * w.mobs[uid].level)])
  }

  /** The level the character has after the kill: the table's level for old experience plus mobXP, if higher. */
  function LevelAfterKill(row: CharacterRow, xp: int): (l: int)
    ensures l >= row.level
    ensures l == row.level || l == Levels.LevelFromExp(row.experience + xp)
  {
    var l := Levels.LevelFromExp(row.experience + xp);
    if l > row.level then l else row.level
  }

  /** The notices of a kill: the spoils when any caps fell, then the new level when it rose. */
  function KillNotes(arg: string, row: CharacterRow, xp: int, caps: int): seq<Note>
  {
    (if caps != 0 then [Killed(arg, xp, caps)] else [])
    + (if LevelAfterKill(row, xp) > row.level then [LevelUp(LevelAfterKill(row, xp))] else [])
  }

  /**
   * The state after a kill: the uid leaves npcUIDs (one copy) and the mob
   * table, the experience grows by mobXP times the mob's level, the caps are
   * carried, and only the kill's notices are sent.
   */
  predicate Slain(w: World, h: Handle, me: int, uid: int, arg: string, env: Env, w': World)
    requires Actor(w, h, me) && uid in w.mobs && EnvOk(env)
  {
    uid in w.npcUIDs && w.mobs[uid].species in w.species && ExpValue(w, uid) > 0
    && var xp := ExpValue(w, uid);
    var row := w.characters[me];
    var caps := CapsDrop(env, xp);
    w' == w.(npcUIDs := RemoveFirst(w.npcUIDs, uid),
             characters := w.characters[me := row.(experience := row.experience + xp * w.mobs[uid].level,
                                                   level := LevelAfterKill(row, xp))],
             inventories := w.inventories[me := Added(InventoryOf(w, me), BottleCap, caps)],
             mobs := w.mobs - {uid},
             mobOrder := Without(w.mobOrder, uid),
             outbox := w.outbox + Addressed(h, KillNotes(arg, row, xp, caps)))
  }

  function Kill(w: World, h: Handle, me: int, uid: int, arg: string, env: Env): (w': World)
    requires Actor(w, h, me) && uid in w.mobs && EnvOk(env)
    requires uid in w.npcUIDs && w.mobs[uid].species in w.species && ExpValue(w, uid) > 0
    ensures Slain(w, h, me, uid, arg, env, w')
  {
    var xp := ExpValue(w, uid);
    var row := w.characters[me];
    var caps := CapsDrop(env, xp);
    w.(npcUIDs := RemoveFirst(w.npcUIDs, uid),
       characters := w.characters[me := row.(experience := row.experience + xp * w.mobs[uid].level,
                                             level := LevelAfterKill(row, xp))],
       inventories := w.inventories[me := Added(InventoryOf(w, me), BottleCap, caps)],
       mobs := w.mobs - {uid},
       mobOrder := Without(w.mobOrder, uid),
       outbox := w.outbox + Addressed(h, KillNotes(arg, row, xp, caps)))
  }

  /**
   * The state after a blow the mob survives: its hit points drop by the
   * character's damage; then the mob's blow either nearly kills the
   * character (back to room 1 with three quarters of its maximum hit points
   * and 95% of its experience, and the claim released) or costs exactly
   * that blow.
   */
  predicate Wounded(w: World, h: Handle, me: int, uid: int, env: Env, w': World)
    requires Actor(w, h, me) && uid in w.mobs
  {
    var row := w.characters[me];
    var m := w.mobs[uid];
    var blow := StrikeBack(env);
    if row.hp - blow <= 0 then
      w' == w.(mobs := w.mobs[uid := m.(hp := m.hp - env.characterDamage, attacked := false, attacker := 0)],
               characters := w.characters[me := row.(hp := JavaMath.Scaled(env.maxHp, 3, 4), location := 1,
                                                     experience := JavaMath.Scaled(row.experience, 95, 100))],
               outbox := w.outbox + Addressed(h, [Hit(uid, env.characterDamage), NearlyDied(uid, blow)]))
    else
      w' == w.(mobs := w.mobs[uid := m.(hp := m.hp - env.characterDamage)],
               characters := w.characters[me := row.(hp := row.hp - blow)],
               outbox := w.outbox + Addressed(h, [Hit(uid, env.characterDamage), Struck(uid, blow)]))
  }

  function Wound(w: World, h: Handle, me: int, uid: int, env: Env): (w': World)
    requires Actor(w, h, me) && uid in w.mobs
    ensures Wounded(w, h, me, uid, env, w')
  {
    var row := w.characters[me];
    var m := w.mobs[uid];
    var blow := StrikeBack(env);
    if row.hp - blow <= 0 then
      w.(mobs := w.mobs[uid := m.(hp := m.hp - env.characterDamage, attacked := false, attacker := 0)],
         characters := w.characters[me := row.(hp := JavaMath.Scaled(env.maxHp, 3, 4), location := 1,
                                               experience := JavaMath.Scaled(row.experience, 95, 100))],
         outbox := w.outbox + Addressed(h, [Hit(uid, env.characterDamage), NearlyDied(uid, blow)]))
    else
      w.(mobs := w.mobs[uid := m.(hp := m.hp - env.characterDamage)],
         characters := w.characters[me := row.(hp := row.hp - blow)],
         outbox := w.outbox + Addressed(h, [Hit(uid, env.characterDamage), Struck(uid, blow)]))
  }

  /**
   * A kill: the mob is gone from the table and from npcUIDs' count, the
   * experience grows by exactly mobXP * mobLevel, 0 <= caps < mobXP are
   * added, the level does not fall, and the character's hit points and room
   * are untouched.
   */
  lemma KillRewards(w: World, h: Handle, me: int, uid: int, arg: string, env: Env)
    requires Actor(w, h, me) && uid in w.mobs && EnvOk(env)
    requires !AttackCrashes(w, uid, env) && !Survives(w, uid, env)
    ensures var w' := DoAttack(w, h, me, uid, arg, env).w;
      var row := w.characters[me]; var row' := w'.characters[me];
      var xp := w.species[w.mobs[uid].species].expValue;
      uid !in w'.mobs && |w'.npcUIDs| == |w.npcUIDs| - 1
      && row'.experience == row.experience + xp * w.mobs[uid].level
      && 0 <= InventoryOf(w', me)[BottleCap] - InventoryOf(w, me)[BottleCap] < xp
      && row'.level >= row.level && row'.hp == row.hp && row'.location == row.location
  {
  }

  /**
   * A blow the mob survives: its hit points drop by exactly the character's
   * damage; a character the mob's blow would bring to 0 or below goes to
   * room 1 and the claim is released; otherwise the character loses exactly
   * that blow and stays where it is, and the claim stands.
   */
  lemma WoundCosts(w: World, h: Handle, me: int, uid: int, arg: string, env: Env)
    requires Actor(w, h, me) && uid in w.mobs && EnvOk(env)
    requires !AttackCrashes(w, uid, env) && Survives(w, uid, env)
    ensures var w' := DoAttack(w, h, me, uid, arg, env).w;
      uid in w'.mobs && me in w'.characters && w'.mobs[uid].hp == w.mobs[uid].hp - env.characterDamage
      && (w.characters[me].hp - StrikeBack(env) <= 0 ==> w'.characters[me].location == 1 && !w'.mobs[uid].attacked)
      && (w.characters[me].hp - StrikeBack(env) > 0 ==>
            (w'.characters[me].hp == w.characters[me].hp - StrikeBack(env)
             && w'.characters[me].location == w.characters[me].location
             && w'.mobs[uid].attacked == w.mobs[uid].attacked && w'.mobs[uid].attacker == w.mobs[uid].attacker))
  {
    if w.characters[me].hp - StrikeBack(env) <= 0 {
      NearlyKilled(w, h, me, uid, env, DoAttack(w, h, me, uid, arg, env).w);
    } else {
      BlowBackTaken(w, h, me, uid, env, DoAttack(w, h, me, uid, arg, env).w);
    }
  }

  /** The mob's blow back would leave the character at 0 or below: room 1, the claim released. */
  lemma NearlyKilled(w: World, h: Handle, me: int, uid: int, env: Env, w': World)
    requires Actor(w, h, me) && uid in w.mobs && Wounded(w, h, me, uid, env, w')
    requires w.characters[me].hp - StrikeBack(env) <= 0
    ensures uid in w'.mobs && me in w'.characters && w'.mobs[uid].hp == w.mobs[uid].hp - env.characterDamage
    ensures w'.characters[me].location == 1 && !w'.mobs[uid].attacked
  {
    var row := w.characters[me];
    var m := w.mobs[uid];
    assert w'.characters == w.characters[me := row.(hp := JavaMath.Scaled(env.maxHp, 3, 4), location := 1,
                                                    experience := JavaMath.Scaled(row.experience, 95, 100))];
    assert w'.mobs == w.mobs[uid := m.(hp := m.hp - env.characterDamage, attacked := false, attacker := 0)];
  }

  /** The character survives the blow back: it loses exactly that blow, stays put, and the claim stands. */
  lemma BlowBackTaken(w: World, h: Handle, me: int, uid: int, env: Env, w': World)
    requires Actor(w, h, me) && uid in w.mobs && Wounded(w, h, me, uid, env, w')
    requires w.characters[me].hp - StrikeBack(env) > 0
    ensures uid in w'.mobs && me in w'.characters && w'.mobs[uid].hp == w.mobs[uid].hp - env.characterDamage
    ensures w'.characters[me].hp == w.characters[me].hp - StrikeBack(env)
    ensures w'.characters[me].location == w.characters[me].location
    ensures w'.mobs[uid].attacked == w.mobs[uid].attacked && w'.mobs[uid].attacker == w.mobs[uid].attacker
  {
    var row := w.characters[me];
    var m := w.mobs[uid];
    assert w'.characters == w.characters[me := row.(hp := row.hp - StrikeBack(env))];
    assert w'.mobs == w.mobs[uid := m.(hp := m.hp - env.characterDamage)];
  }

  /** An attack that finds its mob unclaimed leaves it claimed by the attacker unless the blow back nearly kills. */
  lemma AttackClaims(w: World, h: Handle, me: int, arg: string, env: Env)
    requires Actor(w, h, me) && EnvOk(env)
    requires var u := LastNamed(w, MobsIn(w, LocationOf(w, me)), arg);
      u.Some? && !w.mobs[u.value].attacked
    requires var u := LastNamed(w, MobsIn(w, LocationOf(w, me)), arg).value;
      !AttackCrashes(w, u, env) && Survives(w, u, env) && w.characters[me].hp - StrikeBack(env) > 0
    ensures var u := LastNamed(w, MobsIn(w, LocationOf(w, me)), arg).value;
      var w' := Attack(w, h, me, arg, env).w;
      u in w'.mobs && w'.mobs[u].attacked && w'.mobs[u].attacker == me
  {
    var u := LastNamed(w, MobsIn(w, LocationOf(w, me)), arg).value;
    var w1 := Claim(w, u, me);
    assert Actor(w1, h, me) && !AttackCrashes(w1, u, env) && Survives(w1, u, env);
    WoundCosts(w1, h, me, u, arg, env);
  }

  /** Another character's mob takes no damage and keeps its claim. */
  lemma ClaimedMobSpared(w: World, h: Handle, me: int, arg: string, env: Env)
    requires Actor(w, h, me) && EnvOk(env)
    requires var u := LastNamed(w, MobsIn(w, LocationOf(w, me)), arg);
      u.Some? && w.mobs[u.value].attacked && w.mobs[u.value].attacker != me
    ensures Attack(w, h, me, arg, env).w.mobs == w.mobs
  {
  }

  // ----------------------------------------------------- the mobs' attack

  /** The hostile mobs of a room, when doMobAttack is scheduled; a mob without a species row is not hostile. */
  function HostileMobs(w: World, room: int): (uids: seq<int>)
    ensures forall u :: u in uids <==> (u in MobsIn(w, room) && w.mobs[u].species in w.species
      && w.species[w.mobs[u].species].hostile)
  {
    HostileAmong(w, MobsIn(w, room))
  }

  function HostileAmong(w: World, us: seq<int>): (uids: seq<int>)
    requires forall u :: u in us ==> u in w.mobs
    ensures forall u :: u in uids <==> (u in us && w.mobs[u].species in w.species && w.species[w.mobs[u].species].hostile)
  {
    if |us| == 0 then []
    else
      var u := us[0];
      (if w.mobs[u].species in w.species && w.species[w.mobs[u].species].hostile then [u] else [])
      + HostileAmong(w, us[1..])
  }

  /**
   * One mob blow on the character of session `c`: a blow that would bring
   * it to 0 or below sends it to room 1 with full hit points and 95% of its
   * experience and releases the mob's claim; otherwise it costs the blow.
   * A mob or character row that is gone makes the attack timer throw.
   */
  function MobHit(w: World, uid: int, c: Handle, env: Env): (r: Run)
    requires HoldsCharacter(w, c)
    ensures r.crashed <==> uid !in w.mobs || CharacterIdAt(w, c) !in w.characters
    ensures r.w.sessions == w.sessions && r.w.registry == w.registry && r.w.inventories == w.inventories
    ensures r.w.characters.Keys == w.characters.Keys
    ensures forall id :: id in w.characters && id != CharacterIdAt(w, c) ==> r.w.characters[id] == w.characters[id]
    ensures !r.crashed ==> MobHitOn(w, uid, CharacterIdAt(w, c), c, env, r.w)
  {
    var id := CharacterIdAt(w, c);
    if uid !in w.mobs || id !in w.characters then Run(w, true)
    else Run(Blow(w, uid, id, c, env), false)
  }

  predicate MobHitOn(w: World, uid: int, id: int, c: Handle, env: Env, w': World)
    requires uid in w.mobs && id in w.characters
  {
    var row := w.characters[id];
    var blow := Ambush(env, w.mobs[uid].level);
    if row.hp - blow <= 0 then
      w' == w.(characters := w.characters[id := row.(hp := env.maxHp, location := 1,
                                                     experience := JavaMath.Scaled(row.experience, 95, 100))],
               mobs := w.mobs[uid := w.mobs[uid].(attacked := false, attacker := 0)],
               outbox := w.outbox + [Delivery(c, Display(NearlyDied(uid, blow)))])
    else
      w' == w.(characters := w.characters[id := row.(hp := row.hp - blow)],
               outbox := w.outbox + [Delivery(c, Display(Struck(uid, blow)))])
  }

  function Blow(w: World, uid: int, id: int, c: Handle, env: Env): (w': World)
    requires uid in w.mobs && id in w.characters
    ensures w'.sessions == w.sessions && w'.registry == w.registry && w'.inventories == w.inventories
    ensures id in w'.characters && w'.characters == w.characters[id := w'.characters[id]]
    ensures MobHitOn(w, uid, id, c, env, w')
  {
    var row := w.characters[id];
    var blow := Ambush(env, w.mobs[uid].level);
    if row.hp - blow <= 0 then
      w.(characters := w.characters[id := row.(hp := env.maxHp, location := 1,
                                               experience := JavaMath.Scaled(row.experience, 95, 100))],
         mobs := w.mobs[uid := w.mobs[uid].(attacked := false, attacker := 0)],
         outbox := w.outbox + [Delivery(c, Display(NearlyDied(uid, blow)))])
    else
      w.(characters := w.characters[id := row.(hp := row.hp - blow)],
         outbox := w.outbox + [Delivery(c, Display(Struck(uid, blow)))])
  }

  /**
   * The registry loop of doMobAttack AS WRITTEN: `c` is set when the loop
   * reaches the target's session, and the blow is inside the loop, so the
   * target is struck again for every later session that holds a character.
   */
  function RoundAsWritten(w: World, uid: int, target: int, hs: seq<Handle>, c: Option<Handle>, env: Env): (r: Run)
    requires c.Some? ==> HoldsCharacter(w, c.value)
    ensures r.w.sessions == w.sessions && r.w.registry == w.registry
    ensures r.w.characters.Keys == w.characters.Keys
    decreases |hs|
  {
    if |hs| == 0 then Run(w, false)
    else if !HoldsCharacter(w, hs[0]) then RoundAsWritten(w, uid, target, hs[1..], c, env)
    else
      var c' := if CharacterIdAt(w, hs[0]) == target then Some(hs[0]) else c;
      match c'
      case None => RoundAsWritten(w, uid, target, hs[1..], None, env)
      case Some(v) =>
        var r := MobHit(w, uid, v, env);
        if r.crashed then r else RoundAsWritten(r.w, uid, target, hs[1..], c', env)
  }

  /** The session the loop settles on for the target character: the last one playing it. */
  function TargetSession(w: World, hs: seq<Handle>, target: int): (c: Option<Handle>)
    ensures c.Some? ==> c.value in hs && HoldsCharacter(w, c.value) && CharacterIdAt(w, c.value) == target
    ensures c.None? ==> forall h :: h in hs && HoldsCharacter(w, h) ==> CharacterIdAt(w, h) != target
  {
    if |hs| == 0 then None
    else
      var last := hs[|hs| - 1];
      if HoldsCharacter(w, last) && CharacterIdAt(w, last) == target then Some(last)
      else
        var c := TargetSession(w, hs[..|hs| - 1], target);
        assert forall h :: h in hs ==> h == last || h in hs[..|hs| - 1];
        c
  }

  /** The corrected round: the target's session is struck once, when it has one. */
  function MobRound(w: World, uid: int, target: int, env: Env): (r: Run)
    ensures TargetSession(w, w.registry, target).None? ==> r == Run(w, false)
    ensures TargetSession(w, w.registry, target).Some? ==> r == MobHit(w, uid, TargetSession(w, w.registry, target).value, env)
  {
    match TargetSession(w, w.registry, target)
    case None => Run(w, false)
    case Some(c) => MobHit(w, uid, c, env)
  }

  /**
   * The loop as written strikes twice when a second session holding a
   * character follows the target's: a target with hit points to spare
   * loses two blows instead of one.
   */
  lemma RoundStrikesTwice(w: World, uid: int, a: Handle, b: Handle, env: Env)
    requires w.registry == [a, b] && a != b
    requires HoldsCharacter(w, a) && HoldsCharacter(w, b) && CharacterIdAt(w, b) != CharacterIdAt(w, a)
    requires uid in w.mobs && CharacterIdAt(w, a) in w.characters
    requires var blow := Ambush(env, w.mobs[uid].level);
      blow > 0 && w.characters[CharacterIdAt(w, a)].hp - 2 * blow > 0
    ensures var id := CharacterIdAt(w, a); var blow := Ambush(env, w.mobs[uid].level);
      RoundAsWritten(w, uid, id, w.registry, None, env).w.characters[id].hp == w.characters[id].hp - 2 * blow
      && MobRound(w, uid, id, env).w.characters[id].hp == w.characters[id].hp - blow
  {
    var id := CharacterIdAt(w, a);
    var r1 := MobHit(w, uid, a, env);
    assert HoldsCharacter(r1.w, a) && CharacterIdAt(r1.w, b) != id;
    var r2 := MobHit(r1.w, uid, a, env);
    assert RoundAsWritten(r2.w, uid, id, [], Some(a), env).w == r2.w;
    assert RoundAsWritten(r1.w, uid, id, [b], Some(a), env) == RoundAsWritten(r2.w, uid, id, [], Some(a), env);
    assert [a, b][1..] == [b];
    assert TargetSession(w, w.registry, id) == Some(a) by {
      assert TargetSession(w, [a], id) == Some(a);
    }
  }

  /** The random target: the last character of the room whose coin came up true, or 0. */
  function Chosen(ids: seq<int>, coin: int -> bool): (t: int)
    ensures t == 0 || t in ids
  {
    if |ids| == 0 then 0
    else if coin(|ids| - 1) then ids[|ids| - 1]
    else Chosen(ids[..|ids| - 1], coin)
  }

  /**
   * The timer doMobAttack schedules for a room, with the corrected round:
   * each hostile mob picks a character of the room (the room scan throws at
   * a missing row) and strikes it once. The mob's damage and the target's
   * defense and maximum hit points are read per blow: `envs(n, t)` gives
   * them for the mob with `n` mobs left and the character `t` it picked.
   */
  function MobAttack(w: World, room: int, hostile: seq<int>, coins: (int, int) -> bool, envs: (int, int) -> Env): (r: Run)
    ensures r.w.sessions == w.sessions && r.w.registry == w.registry
    ensures r.w.inventories == w.inventories && r.w.characters.Keys == w.characters.Keys
    decreases |hostile|
  {
    if |hostile| == 0 then Run(w, false)
    else
      var here := InRoom(w, room);
      if here.faulted then Run(w, true)
      else
        assert forall k :: k in here.kept ==> HoldsCharacter(w, k);
        var t := Chosen(IdsAt(w, here.kept), i => coins(|hostile|, i));
        var r := MobRound(w, hostile[0], t, envs(|hostile|, t));
        if r.crashed then r else MobAttack(r.w, room, hostile[1..], coins, envs)
  }

  /** A round of the corrected timer strikes only a character that was in the room, online. */
  lemma StrikesOnlyTheRoom(w: World, uid: int, target: int, env: Env, room: int)
    requires !InRoom(w, room).faulted
    requires forall k :: k in InRoom(w, room).kept ==> HoldsCharacter(w, k)
    requires target == 0 || target in IdsAt(w, InRoom(w, room).kept)
    requires forall h :: h in w.registry && HoldsCharacter(w, h) ==> CharacterIdAt(w, h) != 0
    ensures var r := MobRound(w, uid, target, env);
      forall id :: id in w.characters && id in r.w.characters && r.w.characters[id] != w.characters[id] ==>
        id == target && exists k :: k in InRoom(w, room).kept && CharacterIdAt(w, k) == id
  {
    var kept := InRoom(w, room).kept;
    if target != 0 {
      var i :| 0 <= i < |kept| && IdsAt(w, kept)[i] == target;
      assert kept[i] in kept && CharacterIdAt(w, kept[i]) == target;
    }
  }
}
