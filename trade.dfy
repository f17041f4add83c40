/**
 * `trade <player> <item>`, `trade <player> accept` and `trade <player>
 * refuse`: two sessions negotiate through the trade fields of their
 * handlers (the item offered, the character offered to, and the accept
 * flag), and an accept that both sides have agreed to swaps one unit of
 * each side's item.
 */
module Trade {
  import opened Wrappers
  import opened World
  import opened Audience

  /** The otherClient loop reads every session's character id: it throws on a session without a character. */
  function PartnerVerdict(w: World, other: int, k: Handle): Verdict
  {
    if !HoldsCharacter(w, k) then Fault
    else if CharacterIdAt(w, k) == other then Keep
    else Skip
  }

  function Partners(w: World, other: int): (s: Selection)
    ensures forall k :: k in s.kept ==> k in w.registry && HoldsCharacter(w, k) && CharacterIdAt(w, k) == other
    ensures s.faulted <==> exists i :: 0 <= i < |w.registry| && !HoldsCharacter(w, w.registry[i])
  {
    var s := Scan(w.registry, k => PartnerVerdict(w, other, k));
    assert s.faulted <==> exists i :: 0 <= i < |w.registry| && PartnerVerdict(w, other, w.registry[i]) == Fault;
    s
  }

  /** otherClient: the last session playing the character, or null. */
  function Partner(w: World, other: int): (o: Option<Handle>)
    ensures o.Some? ==> o.value in w.sessions && HoldsCharacter(w, o.value) && CharacterIdAt(w, o.value) == other
    ensures o.None? <==> |Partners(w, other).kept| == 0
  {
    var ks := Partners(w, other).kept;
    if |ks| == 0 then None
    else
      assert ks[|ks| - 1] in ks;
      Some(ks[|ks| - 1])
  }

  /** The acting session agreed (its flag), it targets the partner, and the partner targets it. */
  predicate Consented(w: World, h: Handle, me: int, o: Handle, other: int)
    requires h in w.sessions && o in w.sessions
  {
    w.sessions[h].tradeAccept && w.sessions[o].tradingTo == me && w.sessions[h].tradingTo == other
  }

  /** The trade handler. */
  function Trade(w: World, h: Handle, me: int, name: string, item: string): (r: Step)
    requires Actor(w, h, me)
    ensures IdOf(w.characterIds, name) == -1 ==>
      !r.crashed && OnlySent(w, r.w) && Sent(w, r.w) == [Delivery(h, Display(WhoIs(name)))]
    ensures IdOf(w.characterIds, name) != -1 && Partners(w, IdOf(w.characterIds, name)).faulted ==> r == Abort(w)
    ensures IdOf(w.characterIds, name) != -1 && !Partners(w, IdOf(w.characterIds, name)).faulted ==>
      r == Negotiate(w, h, me, IdOf(w.characterIds, name), name, item, Partner(w, IdOf(w.characterIds, name)))
  {
    var other := IdOf(w.characterIds, name);
    if other == -1 then Reply(w, h, WhoIs(name))
    else if Partners(w, other).faulted then Abort(w)
    else Negotiate(w, h, me, other, name, item, Partner(w, other))
  }

  /**
   * What follows the partner lookup. An `accept` without a partner session
   * throws; one that matches neither the commit nor the one-sided case is
   * handled as an offer of an item named "accept".
   */
  function Negotiate(w: World, h: Handle, me: int, other: int, name: string, item: string, oc: Option<Handle>): (r: Step)
    requires Actor(w, h, me) && (oc.Some? ==> oc.value in w.sessions)
  {
    if item == "accept" then
      match oc
      case None => Abort(w)
      case Some(o) =>
        if Consented(w, h, me, o, other) then Commit(w, h, me, o, other)
        else if w.sessions[o].tradingTo == me then AcceptOffer(w, h, me, o, name)
        else Offer(w, h, me, other, name, item)
    else if item == "refuse" then Refuse(w, h, me, name, oc)
    else Offer(w, h, me, other, name, item)
  }

  // ------------------------------------------------------------------ commit

  /** removeItemFromCharacter then addItemToCharacter, when `from` holds the item. */
  function Hand(w: World, from: int, to: int, item: int): (w': World)
    ensures w' == w.(inventories := w'.inventories)
    ensures Held(w, from)[item] == 0 ==> w' == w
  {
    if Held(w, from)[item] > 0 then Give(Take(w, from, item, 1), to, item, 1) else w
  }

  /** Handing over touches no one else's belongings. */
  lemma HandKeepsOthers(w: World, from: int, to: int, item: int)
    ensures forall c :: c != from && c != to ==> InventoryOf(Hand(w, from, to, item), c) == InventoryOf(w, c)
  {
  }

  /** Handing over moves one unit from one character to the other, when held. */
  lemma HandMovesOne(w: World, from: int, to: int, item: int)
    requires from != to
    ensures var w' := Hand(w, from, to, item);
      InventoryOf(w', from) + InventoryOf(w', to) == InventoryOf(w, from) + InventoryOf(w, to)
      && (Held(w, from)[item] > 0 ==>
            InventoryOf(w', from) == InventoryOf(w, from) - multiset{item}
            && InventoryOf(w', to) == InventoryOf(w, to) + multiset{item})
  {
    var w' := Hand(w, from, to, item);
    if Held(w, from)[item] > 0 {
      var w1 := Take(w, from, item, 1);
      assert InventoryOf(w1, from) == InventoryOf(w, from) - multiset{item};
      assert InventoryOf(w', to) == InventoryOf(w, to) + multiset{item};
      assert InventoryOf(w', from) == InventoryOf(w1, from);
    }
  }

  /** A session's trade fields after a completed trade: ("", -1, false). */
  function Reset(s: Session): (s': Session)
    ensures s'.tradeItem == Some("") && s'.tradingTo == -1 && !s'.tradeAccept
    ensures s' == s.(tradeItem := s'.tradeItem, tradingTo := s'.tradingTo, tradeAccept := s'.tradeAccept)
  {
    s.(tradeItem := Some(""), tradingTo := -1, tradeAccept := false)
  }

  /** Both sessions are reset, the acting one first. */
  function ResetBoth(w: World, h: Handle, o: Handle): (w': World)
    requires h in w.sessions && o in w.sessions
    ensures w' == w.(sessions := w'.sessions)
    ensures w'.sessions.Keys == w.sessions.Keys
    ensures forall k :: k in w.sessions && k != h && k != o ==> w'.sessions[k] == w.sessions[k]
    ensures w'.sessions[h] == Reset(w.sessions[h])
    ensures w'.sessions[o] == Reset(if o == h then w.sessions[h] else w.sessions[o])
  {
    var w1 := w.(sessions := w.sessions[h := Reset(w.sessions[h])]);
    w1.(sessions := w1.sessions[o := Reset(w1.sessions[o])])
  }

  /**
   * The accepted trade: the offered item, when known, moves one unit to the
   * partner if held; then the partner's item is looked up. An unknown item
   * stops the trade where it is found, so an unknown second item leaves the
   * first already moved.
   */
  function Commit(w: World, h: Handle, me: int, o: Handle, other: int): (r: Step)
    requires Actor(w, h, me) && o in w.sessions
    ensures !r.crashed
    ensures ItemId(w, NameOr(w.sessions[h].tradeItem)) < 0 ==>
      OnlySent(w, r.w) && Sent(w, r.w) == [Delivery(h, Display(UnknownItem(NameOr(w.sessions[h].tradeItem))))]
    ensures ItemId(w, NameOr(w.sessions[h].tradeItem)) >= 0 ==>
      r == TakeBack(Hand(w, me, other, ItemId(w, NameOr(w.sessions[h].tradeItem))), h, me, o, other)
  {
    var sending := NameOr(w.sessions[h].tradeItem);
    if ItemId(w, sending) < 0 then Reply(w, h, UnknownItem(sending))
    else TakeBack(Hand(w, me, other, ItemId(w, sending)), h, me, o, other)
  }

  /**
   * The second half: the partner's item, when known, moves one unit to the
   * acting character if held; then both sessions are reset and both list
   * their inventories.
   */
  function TakeBack(w: World, h: Handle, me: int, o: Handle, other: int): (r: Step)
    requires h in w.sessions && o in w.sessions
    ensures !r.crashed
    ensures ItemId(w, NameOr(w.sessions[o].tradeItem)) < 0 ==>
      r.follow == Done && OnlySent(w, r.w) && Sent(w, r.w) == [Delivery(h, Display(UnknownItem(NameOr(w.sessions[o].tradeItem))))]
    ensures ItemId(w, NameOr(w.sessions[o].tradeItem)) >= 0 ==>
      r.follow == ThenInventory([h, o])
      && r.w == ResetBoth(Hand(w, other, me, ItemId(w, NameOr(w.sessions[o].tradeItem))), h, o)
  {
    var receiving := NameOr(w.sessions[o].tradeItem);
    if ItemId(w, receiving) < 0 then Reply(w, h, UnknownItem(receiving))
    else Step(ResetBoth(Hand(w, other, me, ItemId(w, receiving)), h, o), false, ThenInventory([h, o]))
  }

  // ------------------------------------------------------- one-sided accept

  /** The loop reply: each listener gets `each`, and the acting client `back` after it. */
  function Echoed(ks: seq<Handle>, h: Handle, each: Handle -> Note, back: Note): (ds: seq<Delivery>)
    ensures |ds| == 2 * |ks|
    ensures forall k :: k in ks ==> Delivery(k, Display(each(k))) in ds
    ensures forall d :: d in ds ==> d == Delivery(h, Display(back)) || (d.to in ks && d == Delivery(d.to, Display(each(d.to))))
  {
    if |ks| == 0 then []
    else [Delivery(ks[0], Display(each(ks[0]))), Delivery(h, Display(back))] + Echoed(ks[1..], h, each, back)
  }

  /**
   * The partner targets the acting character but the trade is not agreed:
   * the PARTNER's accept flag is set, and every online session playing the
   * named character hears of it (the acting client is asked for its offer
   * each time). No item moves.
   */
  function AcceptOffer(w: World, h: Handle, me: int, o: Handle, name: string): (r: Step)
    requires Actor(w, h, me) && o in w.sessions
    ensures r.follow == Done && r.crashed == Listeners(w, name).faulted
    ensures r.w == w.(sessions := w.sessions[o := w.sessions[o].(tradeAccept := true)], outbox := r.w.outbox)
    ensures w.outbox <= r.w.outbox
    ensures Sent(w, r.w) == Echoed(Listeners(w, name).kept, h, k => OfferAccepted(w.characters[me].name), AskOffer(NameText(w, o)))
  {
    var l := Listeners(w, name);
    var sent := Echoed(l.kept, h, k => OfferAccepted(w.characters[me].name), AskOffer(NameText(w, o)));
    var w' := w.(sessions := w.sessions[o := w.sessions[o].(tradeAccept := true)], outbox := w.outbox + sent);
    assert w'.outbox[|w.outbox|..] == sent;
    Step(w', l.faulted, Done)
  }

  // ------------------------------------------------------------------ refuse

  /**
   * `refuse`: the acting session's item becomes null, its target -1 and its
   * flag false (cleared twice); then the partner's item becomes null and
   * its target -1, but its flag stays. Without a partner the second write
   * throws. Every online session playing the named character is told that
   * it refused, under its own name, and the acting client that it refused,
   * under the actor's name.
   */
  function Refuse(w: World, h: Handle, me: int, name: string, oc: Option<Handle>): (r: Step)
    requires Actor(w, h, me) && (oc.Some? ==> oc.value in w.sessions)
    ensures r.follow == Done
    ensures oc.None? ==> r == Abort(Withdrawn(w, h))
    ensures oc.Some? ==> (r.crashed == Listeners(w, name).faulted
      && r.w == Dropped(Withdrawn(w, h), oc.value).(outbox := r.w.outbox) && w.outbox <= r.w.outbox
      && Sent(w, r.w) == Echoed(Listeners(w, name).kept, h, k => OfferRefused(NameText(w, k)), YouRefused(w.characters[me].name)))
  {
    var w1 := Withdrawn(w, h);
    match oc
    case None => Abort(w1)
    case Some(o) =>
      var l := Listeners(w, name);
      var sent := Echoed(l.kept, h, k => OfferRefused(NameText(w, k)), YouRefused(w.characters[me].name));
      var w' := Dropped(w1, o).(outbox := w.outbox + sent);
      assert w'.outbox[|w.outbox|..] == sent;
      Step(w', l.faulted, Done)
  }

  /** client.trade(null, -1) and setTrade(false). */
  function Withdrawn(w: World, h: Handle): (w': World)
    requires h in w.sessions
    ensures w' == w.(sessions := w.sessions[h := w.sessions[h].(tradeItem := None, tradingTo := -1, tradeAccept := false)])
  {
    w.(sessions := w.sessions[h := w.sessions[h].(tradeItem := None, tradingTo := -1, tradeAccept := false)])
  }

  /** otherClient.trade(null, -1): the flag is left as it was. */
  function Dropped(w: World, o: Handle): (w': World)
    requires o in w.sessions
    ensures w' == w.(sessions := w.sessions[o := w.sessions[o].(tradeItem := None, tradingTo := -1)])
  {
    w.(sessions := w.sessions[o := w.sessions[o].(tradeItem := None, tradingTo := -1)])
  }

  // ------------------------------------------------------------------- offer

  /**
   * An offer: refused when the item is not carried, or when the named
   * character is the actor's own; otherwise the acting session records the
   * item and the character, and the first online session playing that
   * character hears the offer (the loop throws at a session with a missing
   * row before it).
   */
  function Offer(w: World, h: Handle, me: int, other: int, name: string, item: string): (r: Step)
    requires Actor(w, h, me)
    ensures r.follow == Done
    ensures Held(w, me)[ItemId(w, item)] == 0 ==>
      !r.crashed && OnlySent(w, r.w) && Sent(w, r.w) == [Delivery(h, Display(NotCarried(item)))]
    ensures Held(w, me)[ItemId(w, item)] > 0 && other == me ==>
      !r.crashed && OnlySent(w, r.w) && Sent(w, r.w) == [Delivery(h, Display(TradingSelf))]
    ensures Held(w, me)[ItemId(w, item)] > 0 && other != me ==> Offered(w, h, me, other, name, item, r)
  {
    if Held(w, me)[ItemId(w, item)] == 0 then Reply(w, h, NotCarried(item))
    else if other == me then Reply(w, h, TradingSelf)
    else Propose(w, h, me, other, name, item)
  }

  /** The acting session's new trade fields, and who hears the offer. */
  predicate Offered(w: World, h: Handle, me: int, other: int, name: string, item: string, r: Step)
    requires Actor(w, h, me)
  {
    var l := Listeners(w, name);
    r.w == w.(sessions := w.sessions[h := w.sessions[h].(tradeItem := Some(item), tradingTo := other)], outbox := r.w.outbox)
    && w.outbox <= r.w.outbox
    && (|l.kept| > 0 ==>
          (!r.crashed && Sent(w, r.w) ==
             [Delivery(l.kept[0], Display(TradeOffer(w.characters[me].name, item))),
              Delivery(h, Display(TradeProposed(NameText(w, l.kept[0]), item)))]))
    && (|l.kept| == 0 ==> r.crashed == l.faulted && Sent(w, r.w) == [])
  }

  function Propose(w: World, h: Handle, me: int, other: int, name: string, item: string): (r: Step)
    requires Actor(w, h, me)
    ensures Offered(w, h, me, other, name, item, r) && r.follow == Done
  {
    var w1 := w.(sessions := w.sessions[h := w.sessions[h].(tradeItem := Some(item), tradingTo := other)]);
    var l := Listeners(w, name);
    if |l.kept| > 0 then
      var sent := [Delivery(l.kept[0], Display(TradeOffer(w.characters[me].name, item))),
                   Delivery(h, Display(TradeProposed(NameText(w, l.kept[0]), item)))];
      var w' := w1.(outbox := w.outbox + sent);
      assert w'.outbox[|w.outbox|..] == sent;
      Finish(w')
    else
      assert w1.outbox[|w.outbox|..] == [];
      Step(w1, l.faulted, Done)
  }

  // --------------------------------------------------------------- properties

  /** The partner session the handler settles on, when the lookup neither fails nor throws. */
  predicate Settled(w: World, name: string, o: Handle)
  {
    var other := IdOf(w.characterIds, name);
    other != -1 && !Partners(w, other).faulted && Partner(w, other) == Some(o)
  }

  /** An accept both sides agreed to is a commit. */
  lemma AcceptCommits(w: World, h: Handle, me: int, name: string, o: Handle)
    requires Actor(w, h, me) && Settled(w, name, o)
    requires Consented(w, h, me, o, IdOf(w.characterIds, name))
    ensures Trade(w, h, me, name, "accept") == Commit(w, h, me, o, IdOf(w.characterIds, name))
  {
  }

  /** A commit with both items known resets both sessions to ("", -1, false) and lists both inventories. */
  lemma CommitResets(w: World, h: Handle, me: int, o: Handle, other: int)
    requires Actor(w, h, me) && o in w.sessions
    requires ItemId(w, NameOr(w.sessions[h].tradeItem)) >= 0 && ItemId(w, NameOr(w.sessions[o].tradeItem)) >= 0
    ensures var r := Commit(w, h, me, o, other);
      !r.crashed && r.follow == ThenInventory([h, o])
      && r.w.sessions[h].tradeItem == Some("") && r.w.sessions[h].tradingTo == -1 && !r.w.sessions[h].tradeAccept
      && r.w.sessions[o].tradeItem == Some("") && r.w.sessions[o].tradingTo == -1 && !r.w.sessions[o].tradeAccept
  {
    var w1 := Hand(w, me, other, ItemId(w, NameOr(w.sessions[h].tradeItem)));
    assert w1.sessions == w.sessions;
  }

  /** A commit with both items known touches the belongings of the two traders only. */
  lemma CommitKeepsOthers(w: World, h: Handle, me: int, o: Handle, other: int)
    requires Actor(w, h, me) && o in w.sessions
    requires ItemId(w, NameOr(w.sessions[h].tradeItem)) >= 0 && ItemId(w, NameOr(w.sessions[o].tradeItem)) >= 0
    ensures var r := Commit(w, h, me, o, other);
      forall c :: c != me && c != other ==> InventoryOf(r.w, c) == InventoryOf(w, c)
  {
    var sid := ItemId(w, NameOr(w.sessions[h].tradeItem));
    var rid := ItemId(w, NameOr(w.sessions[o].tradeItem));
    var w1 := Hand(w, me, other, sid);
    var w2 := Hand(w1, other, me, rid);
    assert Commit(w, h, me, o, other).w.inventories == w2.inventories;
    HandKeepsOthers(w, me, other, sid);
    HandKeepsOthers(w1, other, me, rid);
  }

  /** A commit with both items known swaps one unit each way, each when held: the two traders together keep what they had. */
  lemma CommitConserves(w: World, h: Handle, me: int, o: Handle, other: int)
    requires Actor(w, h, me) && o in w.sessions && me != other
    requires ItemId(w, NameOr(w.sessions[h].tradeItem)) >= 0 && ItemId(w, NameOr(w.sessions[o].tradeItem)) >= 0
    ensures var r := Commit(w, h, me, o, other);
      InventoryOf(r.w, me) + InventoryOf(r.w, other) == InventoryOf(w, me) + InventoryOf(w, other)
  {
    var sid := ItemId(w, NameOr(w.sessions[h].tradeItem));
    var rid := ItemId(w, NameOr(w.sessions[o].tradeItem));
    var w1 := Hand(w, me, other, sid);
    var w2 := Hand(w1, other, me, rid);
    var r := Commit(w, h, me, o, other);
    assert r.w.inventories == w2.inventories;
    HandMovesOne(w, me, other, sid);
    HandMovesOne(w1, other, me, rid);
    SumsChain(InventoryOf(w, me), InventoryOf(w, other), InventoryOf(w1, me), InventoryOf(w1, other),
      InventoryOf(w2, me), InventoryOf(w2, other));
    assert InventoryOf(r.w, me) == InventoryOf(w2, me) && InventoryOf(r.w, other) == InventoryOf(w2, other);
  }

  /** Accepting a traded item moves the first item before the second is looked up. */
  lemma FirstItemMovesFirst(w: World, h: Handle, me: int, name: string, o: Handle)
    requires Actor(w, h, me) && Settled(w, name, o)
    requires Consented(w, h, me, o, IdOf(w.characterIds, name)) && me != IdOf(w.characterIds, name)
    requires var sid := ItemId(w, NameOr(w.sessions[h].tradeItem)); sid >= 0 && Held(w, me)[sid] > 0
    requires ItemId(w, NameOr(w.sessions[o].tradeItem)) < 0
    ensures var other := IdOf(w.characterIds, name);
      var sid := ItemId(w, NameOr(w.sessions[h].tradeItem));
      var r := Trade(w, h, me, name, "accept");
      !r.crashed && r.w.sessions == w.sessions
      && InventoryOf(r.w, me)[sid] == InventoryOf(w, me)[sid] - 1
      && InventoryOf(r.w, other)[sid] == InventoryOf(w, other)[sid] + 1
  {
    var other := IdOf(w.characterIds, name);
    var sid := ItemId(w, NameOr(w.sessions[h].tradeItem));
    var w1 := Hand(w, me, other, sid);
    assert Trade(w, h, me, name, "accept") == TakeBack(w1, h, me, o, other);
    HandMovesOne(w, me, other, sid);
  }

  /** A one-sided accept sets only the partner's flag: no item moves and no other field changes. */
  lemma OneSidedAccept(w: World, h: Handle, me: int, name: string, o: Handle)
    requires Actor(w, h, me) && Settled(w, name, o)
    requires !Consented(w, h, me, o, IdOf(w.characterIds, name)) && w.sessions[o].tradingTo == me
    ensures var r := Trade(w, h, me, name, "accept");
      r.w.inventories == w.inventories
      && r.w.sessions == w.sessions[o := w.sessions[o].(tradeAccept := true)]
  {
    assert Trade(w, h, me, name, "accept") == AcceptOffer(w, h, me, o, name);
  }

  /** An accept that matches neither case is an offer of an item named "accept". */
  lemma AcceptFallsThrough(w: World, h: Handle, me: int, name: string, o: Handle)
    requires Actor(w, h, me) && Settled(w, name, o)
    requires !Consented(w, h, me, o, IdOf(w.characterIds, name)) && w.sessions[o].tradingTo != me
    ensures Trade(w, h, me, name, "accept") == Offer(w, h, me, IdOf(w.characterIds, name), name, "accept")
  {
  }

  lemma SumsChain(a: multiset<int>, b: multiset<int>, a1: multiset<int>, b1: multiset<int>, a2: multiset<int>, b2: multiset<int>)
    requires a1 + b1 == a + b && b2 + a2 == b1 + a1
    ensures a2 + b2 == a + b
  {
    assert b2 + a2 == a2 + b2 && b1 + a1 == a1 + b1 by {
      assert forall x :: (b2 + a2)[x] == (a2 + b2)[x] && (b1 + a1)[x] == (a1 + b1)[x];
    }
  }

  /** No trade command other than an agreed accept changes what anyone carries. */
  lemma OnlyCommitsMoveItems(w: World, h: Handle, me: int, name: string, item: string)
    requires Actor(w, h, me)
    requires Trade(w, h, me, name, item).w.inventories != w.inventories
    ensures item == "accept"
    ensures exists o :: Settled(w, name, o) && o in w.sessions && Consented(w, h, me, o, IdOf(w.characterIds, name))
  {
    var other := IdOf(w.characterIds, name);
    var oc := Partner(w, other);
    NegotiationKeeps(w, h, me, other, name, item, oc);
    assert Settled(w, name, oc.value);
  }

  lemma NegotiationKeeps(w: World, h: Handle, me: int, other: int, name: string, item: string, oc: Option<Handle>)
    requires Actor(w, h, me) && (oc.Some? ==> oc.value in w.sessions)
    ensures Negotiate(w, h, me, other, name, item, oc).w.inventories != w.inventories ==>
      item == "accept" && oc.Some? && Consented(w, h, me, oc.value, other)
  {
    if item == "accept" && oc.Some? && !Consented(w, h, me, oc.value, other) {
      UnagreedAcceptKeeps(w, h, me, other, name, oc.value);
    } else if item != "accept" {
      OfferOrRefuseKeeps(w, h, me, other, name, item, oc);
    }
  }

  lemma UnagreedAcceptKeeps(w: World, h: Handle, me: int, other: int, name: string, o: Handle)
    requires Actor(w, h, me) && o in w.sessions && !Consented(w, h, me, o, other)
    ensures Negotiate(w, h, me, other, name, "accept", Some(o)).w.inventories == w.inventories
  {
    if w.sessions[o].tradingTo != me {
      OfferKeeps(w, h, me, other, name, "accept");
    }
  }

  lemma OfferOrRefuseKeeps(w: World, h: Handle, me: int, other: int, name: string, item: string, oc: Option<Handle>)
    requires Actor(w, h, me) && (oc.Some? ==> oc.value in w.sessions) && item != "accept"
    ensures Negotiate(w, h, me, other, name, item, oc).w.inventories == w.inventories
  {
    if item != "refuse" {
      OfferKeeps(w, h, me, other, name, item);
    }
  }

  lemma OfferKeeps(w: World, h: Handle, me: int, other: int, name: string, item: string)
    requires Actor(w, h, me)
    ensures Offer(w, h, me, other, name, item).w.inventories == w.inventories
  {
    if Held(w, me)[ItemId(w, item)] > 0 && other != me {
      assert Offered(w, h, me, other, name, item, Offer(w, h, me, other, name, item));
    }
  }

  /** `refuse` clears the acting session (item null) and the partner's item and target, never the partner's flag. */
  lemma RefuseKeepsPartnerFlag(w: World, h: Handle, me: int, name: string, o: Handle)
    requires Actor(w, h, me) && Settled(w, name, o) && o != h
    ensures var s := Trade(w, h, me, name, "refuse").w.sessions;
      h in s && o in s
      && s[h].tradeItem.None? && s[h].tradingTo == -1 && !s[h].tradeAccept
      && s[o].tradeItem.None? && s[o].tradingTo == -1 && s[o].tradeAccept == w.sessions[o].tradeAccept
    ensures Trade(w, h, me, name, "refuse").w.inventories == w.inventories
  {
    assert Trade(w, h, me, name, "refuse") == Refuse(w, h, me, name, Some(o));
  }

  /** An offer of a carried item to another character records exactly that item and character. */
  lemma OfferRecords(w: World, h: Handle, me: int, name: string, item: string)
    requires Actor(w, h, me) && item != "accept" && item != "refuse"
    requires IdOf(w.characterIds, name) !in {-1, me} && !Partners(w, IdOf(w.characterIds, name)).faulted
    requires Held(w, me)[ItemId(w, item)] > 0
    ensures var r := Trade(w, h, me, name, item);
      r.w.sessions == w.sessions[h := w.sessions[h].(tradeItem := Some(item), tradingTo := IdOf(w.characterIds, name))]
      && r.w.inventories == w.inventories
  {
    var other := IdOf(w.characterIds, name);
    assert Trade(w, h, me, name, item) == Offer(w, h, me, other, name, item);
  }
}
