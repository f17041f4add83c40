/**
 * The talking commands: `say` to the room, `emote` to the room, `ooc` to
 * everyone connected, `tell` to one online character, `who` to list the
 * characters in play, `commands` to list the commands, and the players'
 * `shutdown`, which only an administrator may use.
 */
module Chat {
  import opened Wrappers
  import opened World
  import opened Audience
  import Scheduler

  /** The speaker's name, as its row gives it. */
  function Speaker(w: World, me: int): string
    requires me in w.characters
  {
    w.characters[me].name
  }

  /** The `say` handler: the online characters of the room hear it; the loop throws at a missing row. */
  function Say(w: World, h: Handle, me: int, text: string): (r: Step)
    requires Actor(w, h, me)
    ensures OnlySent(w, r.w) && r.follow == Done
    ensures text == "" ==> !r.crashed && Sent(w, r.w) == [Delivery(h, Display(EmptyMessage("say")))]
    ensures text != "" ==> (r.crashed == SayAudience(w, LocationOf(w, me)).faulted
      && Sent(w, r.w) == Broadcast(SayAudience(w, LocationOf(w, me)).kept, Display(Said(Speaker(w, me), text))))
  {
    if text == "" then Reply(w, h, EmptyMessage("say"))
    else
      var s := SayAudience(w, LocationOf(w, me));
      Step(SendAll(w, s.kept, Display(Said(Speaker(w, me), text))), s.faulted, Done)
  }

  /** Every online character in the speaker's room (the speaker among them, when online) hears `say`. */
  lemma SayReachesRoom(w: World, h: Handle, me: int, text: string, other: Handle)
    requires Actor(w, h, me) && text != ""
    requires !SayAudience(w, LocationOf(w, me)).faulted
    requires other in w.registry && Online(w, other) && Located(w, other, LocationOf(w, me))
    ensures Delivery(other, Display(Said(Speaker(w, me), text))) in Sent(w, Say(w, h, me, text).w)
  {
    var kept := SayAudience(w, LocationOf(w, me)).kept;
    var i :| 0 <= i < |kept| && kept[i] == other;
    assert Broadcast(kept, Display(Said(Speaker(w, me), text)))[i] == Delivery(other, Display(Said(Speaker(w, me), text)));
  }

  /** The `emote` handler: the characters of the room see it whether or not they are online. */
  function Emote(w: World, h: Handle, me: int, text: string): (r: Step)
    requires Actor(w, h, me)
    ensures OnlySent(w, r.w) && r.follow == Done
    ensures text == "" ==> !r.crashed && Sent(w, r.w) == [Delivery(h, Display(EmptyMessage("emote")))]
    ensures text != "" ==> (r.crashed == RoomAudience(w, LocationOf(w, me)).faulted
      && Sent(w, r.w) == Broadcast(RoomAudience(w, LocationOf(w, me)).kept, Display(Emoted(Speaker(w, me), text))))
  {
    if text == "" then Reply(w, h, EmptyMessage("emote"))
    else
      var s := RoomAudience(w, LocationOf(w, me));
      Step(SendAll(w, s.kept, Display(Emoted(Speaker(w, me), text))), s.faulted, Done)
  }

  /** The `ooc` handler: every registered client gets the line, in registry order. */
  function Ooc(w: World, h: Handle, me: int, text: string): (r: Step)
    requires Actor(w, h, me)
    ensures OnlySent(w, r.w) && !r.crashed && r.follow == Done
    ensures text == "" ==> Sent(w, r.w) == [Delivery(h, Display(EmptyMessage("ooc")))]
    ensures text != "" ==> Sent(w, r.w) == Broadcast(w.registry, Display(OutOfCharacter(Speaker(w, me), text)))
  {
    if text == "" then Reply(w, h, EmptyMessage("ooc"))
    else Finish(SendAll(w, w.registry, Display(OutOfCharacter(Speaker(w, me), text))))
  }

  /** The `who` handler: the names of all sessions holding a character, online or not. */
  function Who(w: World, h: Handle): (r: Step)
    ensures OnlySent(w, r.w) && !r.crashed && r.follow == Done
    ensures Sent(w, r.w) == [Delivery(h, Display(OnlinePlayers(NamesAt(w, WhoAudience(w).kept))))]
  {
    Reply(w, h, OnlinePlayers(NamesAt(w, WhoAudience(w).kept)))
  }

  /** The `commands` handler: the list of commands, then the statistics. */
  function Commands(w: World, h: Handle, me: int): (r: Step)
    requires Actor(w, h, me)
    ensures OnlySent(w, r.w) && !r.crashed && r.follow == Done
    ensures Sent(w, r.w) == [Delivery(h, Display(CommandList)), Delivery(h, StatsOf(w.characters[me]))]
  {
    Finish(Send(Send(w, h, Display(CommandList)), h, StatsOf(w.characters[me])))
  }

  // ------------------------------------------------------------------- tell

  predicate TellCrashes(w: World, me: int, target: string, text: string)
  {
    var other := IdOf(w.characterIds, target);
    text != "" && other != -1 && other != me
    && |Listeners(w, target).kept| == 0 && Listeners(w, target).faulted
  }

  /**
   * The `tell` handler. The first online session whose character has the
   * target's name gets the whisper, and the speaker the echo; the loop
   * throws when it reaches a session without a character, or without a row,
   * before that one.
   */
  function Tell(w: World, h: Handle, me: int, target: string, text: string): (r: Step)
    requires Actor(w, h, me)
    ensures OnlySent(w, r.w) && r.follow == Done
    ensures r.crashed <==> TellCrashes(w, me, target, text)
    ensures text == "" ==> Sent(w, r.w) == [Delivery(h, Display(TellWhat))]
    ensures text != "" && IdOf(w.characterIds, target) == -1 ==> Sent(w, r.w) == [Delivery(h, Display(NoSuchCharacter(target)))]
    ensures text != "" && IdOf(w.characterIds, target) == me != -1 ==> Sent(w, r.w) == [Delivery(h, Display(TalkingToSelf))]
    ensures text != "" && IdOf(w.characterIds, target) !in {-1, me} && |Listeners(w, target).kept| > 0 ==>
      var k := Listeners(w, target).kept[0];
      Sent(w, r.w) == [Delivery(k, Display(Whisper(Speaker(w, me), text))), Delivery(h, Display(Whispered(target, text)))]
    ensures text != "" && IdOf(w.characterIds, target) !in {-1, me} && !r.crashed && |Listeners(w, target).kept| == 0 ==>
      Sent(w, r.w) == [Delivery(h, Display(NotOnline(target)))]
  {
    var other := IdOf(w.characterIds, target);
    if text == "" then Reply(w, h, TellWhat)
    else if other == -1 then Reply(w, h, NoSuchCharacter(target))
    else if other == me then Reply(w, h, TalkingToSelf)
    else
      var s := Listeners(w, target);
      if |s.kept| > 0 then
        var sent := [Delivery(s.kept[0], Display(Whisper(Speaker(w, me), text))), Delivery(h, Display(Whispered(target, text)))];
        var w' := w.(outbox := w.outbox + sent);
        assert w'.outbox[|w.outbox|..] == sent;
        Finish(w')
      else if s.faulted then Abort(w)
      else Reply(w, h, NotOnline(target))
  }

  /** A whisper reaches only an online session playing a character of that name. */
  lemma WhisperReachesTarget(w: World, h: Handle, me: int, target: string, text: string)
    requires Actor(w, h, me)
    requires text != "" && IdOf(w.characterIds, target) !in {-1, me} && |Listeners(w, target).kept| > 0
    ensures var d := Sent(w, Tell(w, h, me, target, text).w)[0];
      d.to in w.registry && Online(w, d.to) && HoldsCharacter(w, d.to)
      && CharacterIdAt(w, d.to) in w.characters && w.characters[CharacterIdAt(w, d.to)].name == target
  {
    assert Listeners(w, target).kept[0] in Listeners(w, target).kept;
  }

  // --------------------------------------------------------------- shutdown

  /** The players' `shutdown`: reading the user's id throws when the session has no user. */
  function Shutdown(w: World, h: Handle): (r: Step)
    requires h in w.sessions
    ensures r.follow == Done
    ensures r.crashed <==> w.sessions[h].user.None?
    ensures !r.crashed && IsAdmin(w, w.sessions[h].user.value.id) ==> r.w == Scheduler.StartShutdown(w)
    ensures !r.crashed && !IsAdmin(w, w.sessions[h].user.value.id) ==>
      OnlySent(w, r.w) && Sent(w, r.w) == [Delivery(h, Display(NotAdmin))]
  {
    match w.sessions[h].user
    case None => Abort(w)
    case Some(u) =>
      if IsAdmin(w, u.id) then Finish(Scheduler.StartShutdown(w))
      else Reply(w, h, NotAdmin)
  }
}
