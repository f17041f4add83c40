/**
 * Trading with the merchants (non-player characters): buying from a
 * merchant's stock for bottle caps, selling any named item for a price set
 * by the item's level and effect, and talking to a merchant or a mob.
 */
module Merchant {
  import opened Wrappers
  import opened World
  import JavaMath

  // ------------------------------------------------------------------ stock

  /** The price the stock loop ends with: that of the last listing of `item`, if any. */
  function LastPrice(stock: seq<Listing>, item: int): (p: Option<int>)
    ensures p.None? <==> forall i :: 0 <= i < |stock| ==> stock[i].item != item
    ensures p.Some? ==> exists i :: (0 <= i < |stock| && stock[i] == Listing(item, p.value)
      && forall j :: i < j < |stock| ==> stock[j].item != item)
  {
    if |stock| == 0 then None
    else if stock[|stock| - 1].item == item then Some(stock[|stock| - 1].price)
    else
      var p := LastPrice(stock[..|stock| - 1], item);
      assert forall i :: 0 <= i < |stock| - 1 ==> stock[..|stock| - 1][i] == stock[i];
      p
  }

  /** The position of the first listing of `item`, or -1. */
  function FirstListing(stock: seq<Listing>, item: int): (i: int)
    ensures -1 <= i < |stock|
    ensures i == -1 <==> forall j :: 0 <= j < |stock| ==> stock[j].item != item
    ensures i >= 0 ==> stock[i].item == item && forall j :: 0 <= j < i ==> stock[j].item != item
  {
    if |stock| == 0 then -1
    else if stock[0].item == item then 0
    else
      var k := FirstListing(stock[1..], item);
      if k == -1 then -1 else k + 1
  }

  /** removeItemFromNPC: the first listing of the item goes. */
  function RemoveListing(stock: seq<Listing>, item: int): (r: seq<Listing>)
    ensures FirstListing(stock, item) == -1 ==> r == stock
    ensures FirstListing(stock, item) >= 0 ==> (|r| == |stock| - 1
      && multiset(r) == multiset(stock) - multiset{stock[FirstListing(stock, item)]})
  {
    var i := FirstListing(stock, item);
    if i == -1 then stock
    else
      assert stock == stock[..i] + [stock[i]] + stock[i + 1..];
      stock[..i] + stock[i + 1..]
  }

  // -------------------------------------------------------------------- buy

  /** getBottleCapsForCharacter. */
  function Caps(w: World, me: int): nat
  {
    Held(w, me)[BottleCap]
  }

  /** How often a Java `for (k = 0; k < n; k++)` loop runs. */
  function Times(n: int): (k: nat)
    ensures n >= 0 ==> k == n
    ensures n < 0 ==> k == 0
  {
    if n < 0 then 0 else n
  }

  /** The merchant of that name: getIDFromNPCName, which the handlers accept only when positive. */
  function NpcId(w: World, name: string): int
  {
    IdOf(w.npcIds, name)
  }

  /** A merchant id is accepted but its row is missing: parsing its location throws. */
  predicate NpcMissing(w: World, name: string)
  {
    NpcId(w, name) > 0 && NpcId(w, name) !in w.npcs
  }

  /** The named merchant stands in the character's room. */
  predicate MerchantHere(w: World, me: int, name: string)
    requires me in w.characters
  {
    NpcId(w, name) > 0 && NpcId(w, name) in w.npcs && w.npcs[NpcId(w, name)].location == LocationOf(w, me)
  }

  /** buy goes through: the merchant is here, the item is known and listed, and the caps cover its price. */
  predicate CanBuy(w: World, me: int, npcName: string, itemName: string)
    requires me in w.characters
  {
    MerchantHere(w, me, npcName) && ItemId(w, itemName) > 0
    && var p := LastPrice(w.npcs[NpcId(w, npcName)].stock, ItemId(w, itemName));
    p.Some? && Caps(w, me) >= p.value
  }

  /** The unit is added, the price in caps taken, and the first listing of the item removed from the merchant. */
  predicate Purchased(w: World, me: int, n: int, id: int, price: int, w': World)
    requires n in w.npcs
  {
    w' == w.(inventories := w.inventories[me := Taken(Added(Held(w, me), id, 1), BottleCap, Times(price))],
             npcs := w.npcs[n := w.npcs[n].(stock := RemoveListing(w.npcs[n].stock, id))],
             outbox := w'.outbox)
    && w.outbox <= w'.outbox
  }

  function Buy(w: World, h: Handle, me: int, npcName: string, itemName: string): (r: Step)
    requires Actor(w, h, me)
    ensures r.follow == Done
    ensures r.crashed <==> NpcMissing(w, npcName)
    ensures CanBuy(w, me, npcName, itemName) ==>
      var n := NpcId(w, npcName);
      Purchased(w, me, n, ItemId(w, itemName), LastPrice(w.npcs[n].stock, ItemId(w, itemName)).value, r.w)
    ensures !CanBuy(w, me, npcName, itemName) ==> OnlySent(w, r.w)
  {
    if NpcMissing(w, npcName) then Abort(w)
    else if CanBuy(w, me, npcName, itemName) then
      var n := NpcId(w, npcName);
      var id := ItemId(w, itemName);
      Finish(Purchase(w, h, me, n, id, LastPrice(w.npcs[n].stock, id).value))
    else RefuseBuy(w, h, me, npcName, itemName)
  }

  function Purchase(w: World, h: Handle, me: int, n: int, id: int, price: int): (w': World)
    requires n in w.npcs
    ensures Purchased(w, me, n, id, price, w')
  {
    w.(inventories := w.inventories[me := Taken(Added(Held(w, me), id, 1), BottleCap, Times(price))],
       npcs := w.npcs[n := w.npcs[n].(stock := RemoveListing(w.npcs[n].stock, id))],
       outbox := w.outbox + [Delivery(h, Display(Bought(id, price)))])
  }

  function RefuseBuy(w: World, h: Handle, me: int, npcName: string, itemName: string): (r: Step)
    requires Actor(w, h, me) && !NpcMissing(w, npcName) && !CanBuy(w, me, npcName, itemName)
    ensures OnlySent(w, r.w) && !r.crashed && r.follow == Done
  {
    var n := NpcId(w, npcName);
    var id := ItemId(w, itemName);
    if n <= 0 then Reply(w, h, WhoIs(npcName))
    else if w.npcs[n].location != LocationOf(w, me) then Reply(w, h, NotSeen(npcName))
    else if id <= 0 then Reply(w, h, UnknownItem(itemName))
    else match LastPrice(w.npcs[n].stock, id)
      case None => Reply(w, h, DoesNotStock(npcName, id))
      case Some(price) => Reply(w, h, CapsNeeded(price, id))
  }

  /**
   * A purchase of anything but caps adds one unit of it, takes exactly its
   * price in caps, and shortens the merchant's stock by one listing.
   */
  lemma BuyPays(w: World, h: Handle, me: int, npcName: string, itemName: string)
    requires Actor(w, h, me) && CanBuy(w, me, npcName, itemName) && ItemId(w, itemName) != BottleCap
    ensures var n := NpcId(w, npcName); var id := ItemId(w, itemName);
      var price := LastPrice(w.npcs[n].stock, id).value; var w' := Buy(w, h, me, npcName, itemName).w;
      Held(w', me)[id] == Held(w, me)[id] + 1
      && Caps(w', me) == Caps(w, me) - Times(price)
      && |w'.npcs[n].stock| == |w.npcs[n].stock| - 1
  {
    BuyEffect(w, h, me, npcName, itemName);
  }

  lemma BuyEffect(w: World, h: Handle, me: int, npcName: string, itemName: string)
    requires Actor(w, h, me) && CanBuy(w, me, npcName, itemName)
    ensures var n := NpcId(w, npcName); var id := ItemId(w, itemName);
      var price := LastPrice(w.npcs[n].stock, id).value; var w' := Buy(w, h, me, npcName, itemName).w;
      Held(w', me) == Taken(Added(Held(w, me), id, 1), BottleCap, Times(price))
      && n in w'.npcs && w'.npcs[n].stock == RemoveListing(w.npcs[n].stock, id)
      && FirstListing(w.npcs[n].stock, id) >= 0
  {
  }

  // ------------------------------------------------------------------- sell

  /** What the merchant pays: ten caps a required level and three an effect point. */
  function SellPrice(it: ItemRow): int
  {
    it.requiredLevel * 10 + it.effectAmount * 3
  }

  /** The price the merchant then asks: (int)(price * 1.5). */
  function Resale(price: int): (p: int)
    ensures price >= 0 ==> price <= p <= 2 * price
  {
    JavaMath.Quot(price * 3, 2)
  }

  predicate SellCrashes(w: World, me: int, npcName: string, itemName: string)
    requires me in w.characters
  {
    NpcMissing(w, npcName)
    || (MerchantHere(w, me, npcName) && ItemId(w, itemName) > 0 && ItemId(w, itemName) !in w.items)
  }

  /** sell goes through for any known item, held or not: the merchant only has to be here. */
  predicate CanSell(w: World, me: int, npcName: string, itemName: string)
    requires me in w.characters
  {
    MerchantHere(w, me, npcName) && ItemId(w, itemName) > 0 && ItemId(w, itemName) in w.items
  }

  /** One unit of the item is removed (if there is one), the price paid in caps, and a listing at the resale price added. */
  predicate SoldTo(w: World, me: int, n: int, id: int, w': World)
    requires n in w.npcs && id in w.items
  {
    var price := SellPrice(w.items[id]);
    w' == w.(inventories := w.inventories[me := Added(Taken(Held(w, me), id, 1), BottleCap, Times(price))],
             npcs := w.npcs[n := w.npcs[n].(stock := w.npcs[n].stock + [Listing(id, Resale(price))])],
             outbox := w'.outbox)
    && w.outbox <= w'.outbox
  }

  function Sell(w: World, h: Handle, me: int, npcName: string, itemName: string): (r: Step)
    requires Actor(w, h, me)
    ensures r.follow == Done
    ensures r.crashed <==> SellCrashes(w, me, npcName, itemName)
    ensures CanSell(w, me, npcName, itemName) ==> SoldTo(w, me, NpcId(w, npcName), ItemId(w, itemName), r.w)
    ensures !CanSell(w, me, npcName, itemName) ==> OnlySent(w, r.w)
  {
    if SellCrashes(w, me, npcName, itemName) then Abort(w)
    else if CanSell(w, me, npcName, itemName) then
      Finish(SaleTo(w, h, me, NpcId(w, npcName), ItemId(w, itemName)))
    else RefuseSell(w, h, me, npcName, itemName)
  }

  function SaleTo(w: World, h: Handle, me: int, n: int, id: int): (w': World)
    requires n in w.npcs && id in w.items
    ensures SoldTo(w, me, n, id, w')
  {
    var price := SellPrice(w.items[id]);
    w.(inventories := w.inventories[me := Added(Taken(Held(w, me), id, 1), BottleCap, Times(price))],
       npcs := w.npcs[n := w.npcs[n].(stock := w.npcs[n].stock + [Listing(id, Resale(price))])],
       outbox := w.outbox + [Delivery(h, Display(Sold(id, price)))])
  }

  function RefuseSell(w: World, h: Handle, me: int, npcName: string, itemName: string): (r: Step)
    requires Actor(w, h, me) && !SellCrashes(w, me, npcName, itemName) && !CanSell(w, me, npcName, itemName)
    ensures OnlySent(w, r.w) && !r.crashed && r.follow == Done
  {
    var n := NpcId(w, npcName);
    if n <= 0 then Reply(w, h, WhoIs(npcName))
    else if w.npcs[n].location != LocationOf(w, me) then Reply(w, h, NotSeen(npcName))
    else Reply(w, h, UnknownItem(itemName))
  }

  lemma SellEffect(w: World, h: Handle, me: int, npcName: string, itemName: string)
    requires Actor(w, h, me) && CanSell(w, me, npcName, itemName)
    ensures var n := NpcId(w, npcName); var id := ItemId(w, itemName); var w' := Sell(w, h, me, npcName, itemName).w;
      Held(w', me) == Added(Taken(Held(w, me), id, 1), BottleCap, Times(SellPrice(w.items[id])))
      && n in w'.npcs && w'.npcs[n].stock == w.npcs[n].stock + [Listing(id, Resale(SellPrice(w.items[id])))]
      && Actor(w', h, me) && w'.characters == w.characters && w'.itemIds == w.itemIds && w'.npcIds == w.npcIds
      && w'.items == w.items
  {
  }

  /** Selling never checks ownership: an item the character does not hold still earns its price. */
  lemma SellWithoutOwning(w: World, h: Handle, me: int, npcName: string, itemName: string)
    requires Actor(w, h, me) && CanSell(w, me, npcName, itemName)
    requires ItemId(w, itemName) != BottleCap && Held(w, me)[ItemId(w, itemName)] == 0
    ensures var w' := Sell(w, h, me, npcName, itemName).w;
      Caps(w', me) == Caps(w, me) + Times(SellPrice(w.items[ItemId(w, itemName)]))
      && Held(w', me)[ItemId(w, itemName)] == 0
  {
    SellEffect(w, h, me, npcName, itemName);
  }

  /** An item just sold can be bought straight back, at the resale price, as long as the caps cover it. */
  lemma SellThenBuy(w: World, h: Handle, me: int, npcName: string, itemName: string)
    requires Actor(w, h, me) && CanSell(w, me, npcName, itemName)
    ensures var w' := Sell(w, h, me, npcName, itemName).w;
      var n := NpcId(w, npcName); var id := ItemId(w, itemName);
      Actor(w', h, me) && MerchantHere(w', me, npcName)
      && LastPrice(w'.npcs[n].stock, id) == Some(Resale(SellPrice(w.items[id])))
  {
    SellEffect(w, h, me, npcName, itemName);
  }

  // ------------------------------------------------------------------- talk

  /**
   * The `talk` handler. A merchant answers only in its home room, with a
   * line of talk and its stock; otherwise a mob of that name in the room
   * answers. The mob's location check is left out: every mob the loop finds
   * is in the room already.
   */
  function Talk(w: World, h: Handle, me: int, arg: string): (r: Step)
    requires Actor(w, h, me)
    ensures OnlySent(w, r.w) && r.follow == Done
    ensures r.crashed <==> NpcMissing(w, arg)
    ensures !r.crashed && NpcId(w, arg) > 0 && w.npcs[NpcId(w, arg)].homeRoom == LocationOf(w, me) ==>
      Sent(w, r.w) == Addressed(h, [NpcSays(arg), StockList(w.npcs[NpcId(w, arg)].stock)])
    ensures !r.crashed && NpcId(w, arg) > 0 && w.npcs[NpcId(w, arg)].homeRoom != LocationOf(w, me) ==>
      Sent(w, r.w) == Addressed(h, [NotSeen(arg)])
    ensures NpcId(w, arg) <= 0 ==>
      var u := LastNamed(w, MobsIn(w, LocationOf(w, me)), arg);
      Sent(w, r.w) == Addressed(h, [if u.Some? && w.mobs[u.value].species > 0 then MobSays(arg) else TalkToWhom])
  {
    var n := NpcId(w, arg);
    var u := LastNamed(w, MobsIn(w, LocationOf(w, me)), arg);
    if n > 0 then
      if n !in w.npcs then Abort(w)
      else if w.npcs[n].homeRoom != LocationOf(w, me) then Finish(Tell(w, h, [NotSeen(arg)]))
      else Finish(Tell(w, h, [NpcSays(arg), StockList(w.npcs[n].stock)]))
    else if u.Some? && w.mobs[u.value].species > 0 then Finish(Tell(w, h, [MobSays(arg)]))
    else Finish(Tell(w, h, [TalkToWhom]))
  }
}
