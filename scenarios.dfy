/** Whole-system walks through the model: a guest's visit from reservation
    to a freed table, the status update a live subscriber misses, and the
    cart's order numbers. */
module Scenarios {
  import opened Wrappers
  import opened Types
  import opened JsText
  import opened Fanout
  import opened RestaurantStore
  import Actions
  import opened OrderStatusRoute
  import MenuData
  import opened Cart
  import opened OrderSystemMenu

  lemma SauerbratenIsItemTwo()
    ensures FindItem(MenuData.MenuItems, "2") == Some(MenuData.MenuItems[1])
    ensures MenuData.MenuItems[1].name == "Sauerbraten"
  {
    assert MenuData.MenuItems[0].id == "1" != "2";
  }

  /** The query string `?tableId=3` carries the numeral of 3. */
  lemma NumeralThree()
    ensures IntToString(3) == "3"
  {
  }

  /** `?tableId=<n>` on a table with an order opens its stream. */
  lemma RequestForTable(id: int, tables: map<int, Table>)
    requires forall id :: IsValidTableId(id) ==> id in tables
    requires IsValidTableId(id) && tables[id].order.Some?
    ensures Decide(Some(IntToString(id)), tables) == EventStream(id, tables[id].order.value)
  {
    var numeral := IntToString(id);
    NumberedRequest([], id, [], tables);
    assert [] + numeral + [] == numeral;
  }

  /** The order the visit below places. */
  function AnnasOrder(): Order {
    Order("order-1", 3, "Anna", ItemSnapshot(MenuData.MenuItems[1]), OrderReceived, 0)
  }

  /** Anna reserves the free table 3 and orders the Sauerbraten there. */
  method ReserveAndOrder(store: Store) returns (reserved: Outcome<string>, ordered: Result<Option<Order>, string>)
    requires store.Valid() && store.tables[3] == Vacant && store.subs == map[]
    modifies store
    ensures store.Valid() && store.subs == map[]
    ensures store.tables[3] == Table(Reserved, Some("Anna"), Some(AnnasOrder()))
    ensures reserved == Pass && ordered == Success(Some(AnnasOrder()))
  {
    reserved := Actions.ReserveTable(store, 3, "Anna");
    SauerbratenIsItemTwo();
    var noneSent;
    ordered, noneSent := Actions.CreateOrder(store, 3, "Anna", "2", "order-1", 0, {});
  }

  /** A phone opens `?tableId=<n>` on a table with an order and no
      followers, and receives the order so far. */
  method Follow(store: Store, tableId: int, order: Order, phone: Channel) returns (reply: Reply)
    requires store.Valid() && store.subs == map[] && IsValidTableId(tableId)
    requires store.tables[tableId].order == Some(order)
    modifies store
    ensures store.Valid() && store.tables == old(store.tables)
    ensures store.subs == map[tableId := [phone]]
    ensures reply == EventStream(tableId, order)
  {
    RequestForTable(tableId, store.tables);
    assert SubscribersOf(store.subs, tableId) + [phone] == [phone];
    var sub;
    reply, sub := Get(store, Some(IntToString(tableId)), phone);
  }

  /** The order as the kitchen serves it. */
  function ServedOrder(): Order {
    AnnasOrder().(status := OrderServed)
  }

  /** The kitchen serves the order; the following phone receives the
      served order and stays subscribed. */
  method Serve(store: Store) returns (updated: Outcome<string>, served: seq<Message>)
    requires store.Valid() && store.subs == map[3 := [Channel(7)]]
    requires store.tables[3] == Table(Reserved, Some("Anna"), Some(AnnasOrder()))
    modifies store
    ensures store.Valid() && store.subs == map[3 := [Channel(7)]]
    ensures store.tables[3] == Table(Reserved, Some("Anna"), Some(ServedOrder()))
    ensures updated == Pass && served == [Message(Channel(7), ServedOrder())]
  {
    BroadcastWithoutFailures([Channel(7)], {});
    assert SubscribersOf(store.subs, 3) == [Channel(7)];
    updated, served := Actions.UpdateOrderStatus(store, 3, OrderServed, {});
    assert store.subs == map[3 := [Channel(7)]][3 := [Channel(7)]];
  }

  /** The whole visit, from a fresh store to the freed table: every step
      succeeds and the phone's one frame carries the served order. */
  method GuestVisit()
    returns (reserved: Outcome<string>, ordered: Result<Option<Order>, string>, reply: Reply,
             updated: Outcome<string>, served: seq<Message>, freed: Outcome<string>, afterwards: Table)
    ensures reserved == Pass
    ensures ordered == Success(Some(AnnasOrder()))
    ensures AnnasOrder().item.name == "Sauerbraten"
    ensures reply == EventStream(3, AnnasOrder())
    ensures updated == Pass
    ensures |served| == 1 && served[0].to == Channel(7)
    ensures served[0].data.id == "order-1" && served[0].data.status == OrderServed
    ensures freed == Pass
    ensures afterwards == Vacant
  {
    SauerbratenIsItemTwo();
    var store := new Store();
    reserved, ordered := ReserveAndOrder(store);
    reply := Follow(store, 3, AnnasOrder(), Channel(7));
    updated, served := Serve(store);
    freed := Actions.FreeTable(store, 3);
    afterwards := store.tables[3];
  }

  /** Ben orders item 1 at the free table 1 and two phones then follow
      table 1, in the order they connected. */
  method TwoFollowers(store: Store)
    requires store.Valid() && store.tables[1] == Vacant && store.subs == map[]
    modifies store
    ensures store.Valid() && store.tables[1].order.Some?
    ensures SubscribersOf(store.subs, 1) == [Channel(1), Channel(2)]
  {
    assert FindItem(MenuData.MenuItems, "1") == Some(MenuData.MenuItems[0]);
    var ordered, noneSent := Actions.CreateOrder(store, 1, "Ben", "1", "order-2", 0, {});
    assert store.subs == map[];
    var first := store.AddSSEConnection(1, Channel(1));
    var second := store.AddSSEConnection(1, Channel(2));
  }

  /** Two phones follow table 1; the first one has gone away. When the
      order is served, the first send fails and the second phone, whose
      connection is fine, is passed over. */
  method MissedUpdate() returns (sent: seq<Message>, left: seq<Channel>, status: OrderStatus)
    ensures sent == [] && left == [Channel(2)]
    ensures status == OrderServed
  {
    var store := new Store();
    TwoFollowers(store);
    FailedChannelHidesNext(Channel(1), Channel(2));
    var updated;
    updated, sent := Actions.UpdateOrderStatus(store, 1, OrderServed, {Channel(1)});
    left := SubscribersOf(store.subs, 1);
    status := store.tables[1].order.value.status;
  }

  /** Freeing a table a second time gives the same answer and changes
      nothing further; no subscriber list is touched. */
  method FreeTwice(store: Store, tableId: int) returns (first: Outcome<string>, second: Outcome<string>)
    requires store.Valid()
    modifies store
    ensures first == second
    ensures first.Pass? <==> IsValidTableId(tableId)
    ensures store.subs == old(store.subs)
    ensures store.tables == if IsValidTableId(tableId) then old(store.tables)[tableId := Vacant] else old(store.tables)
  {
    first := Actions.FreeTable(store, tableId);
    ghost var once := store.tables;
    second := Actions.FreeTable(store, tableId);
    assert store.tables == once;
  }

  /** Setting the same status twice leaves the tables as the first call
      left them. */
  method UpdateStatusTwice(store: Store, tableId: int, status: OrderStatus, dead: set<Channel>)
    returns (first: Outcome<string>, second: Outcome<string>, once: map<int, Table>)
    requires store.Valid()
    modifies store
    ensures first == second
    ensures store.tables == once
    ensures first.Pass? <==> IsValidTableId(tableId) && old(store.tables)[tableId].order.Some?
    ensures first.Pass? ==> tableId in once && once[tableId].order == Some(old(store.tables)[tableId].order.value.(status := status))
  {
    var sent;
    first, sent := Actions.UpdateOrderStatus(store, tableId, status, dead);
    once := store.tables;
    second, sent := Actions.UpdateOrderStatus(store, tableId, status, dead);
  }

  lemma SmallNumerals()
    ensures NatToString(23) == "23" && NatToString(24) == "24"
  {
    assert NatToString(2) == "2";
  }

  /** The first submitted cart gets number 23; submitting an empty cart
      draws no number; the next order gets 24. */
  method OrderNumbers() returns (first: Option<string>, emptySubmit: Option<string>, second: Option<string>)
    ensures first == Some("23") && emptySubmit == None && second == Some("24")
  {
    var numbers := new OrderNumberCounter();
    var cart := new CartProvider(numbers);
    var soup := MenuItemData("Suppe", "", None, [PriceOption(650, None)]);
    HandleAddItem(cart, soup, "Vorspeisen", 0);
    cart.SubmitOrder();
    first := cart.orderNumber;
    cart.ResetOrder();
    cart.SubmitOrder();
    emptySubmit := cart.orderNumber;
    HandleAddItem(cart, soup, "Vorspeisen", 0);
    cart.SubmitOrder();
    second := cart.orderNumber;
    SmallNumerals();
  }

  lemma LowerAsciiAppend(a: string, b: string)
    ensures LowerAscii(a + b) == LowerAscii(a) + LowerAscii(b)
  {
  }

  /** A title of two words separated by white space becomes the two
      words in lower case joined by one hyphen. */
  lemma TwoWordSectionId(first: string, gap: string, second: string)
    requires NoWhitespace(first) && NoWhitespace(second)
    requires gap != [] && forall i :: 0 <= i < |gap| ==> IsWhitespace(gap[i])
    ensures CreateSectionId(first + gap + second) == LowerAscii(first) + "-" + LowerAscii(second)
  {
    var a, g, b := LowerAscii(first), LowerAscii(gap), LowerAscii(second);
    LowerAsciiAppend(first, gap);
    LowerAsciiAppend(first + gap, second);
    assert LowerAscii(first + gap + second) == a + (g + b);
    assert NoWhitespace(a) && NoWhitespace(b);
    assert g != [] && forall i :: 0 <= i < |g| ==> IsWhitespace(g[i]);
    SlugifyWord(a, g + b);
    SlugifyRun(g, b);
    SlugifyWord(b, []);
    assert b + [] == b;
    assert Slugify(a + (g + b)) == a + ("-" + b);
    AppendAssociative(a, "-", b);
  }
}
