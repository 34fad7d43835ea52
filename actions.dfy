/** The server actions (the files under actions/): thin wrappers around the store that
    turn a thrown error into `{ success: false, error }`. Every error the
    store throws is an `Error`, so the generic fallback message of the
    catch blocks is never produced and is not modelled. */
module Actions {
  import opened Wrappers
  import opened Types
  import opened Fanout
  import opened RestaurantStore
  import MenuData

  const AlreadyReserved := "Dieser Tisch ist bereits von einem anderen Gast reserviert."

  /** `reserveTable`: refuses a table that is already reserved, whoever
      holds it (the guest's own name included), and otherwise reserves it
      under `name`. */
  method ReserveTable(store: Store, tableId: int, name: string) returns (r: Outcome<string>)
    requires store.Valid()
    modifies store
    ensures store.Valid()
    ensures store.subs == old(store.subs)
    ensures !IsValidTableId(tableId) ==>
      r == Fail(InvalidTableIdMessage(tableId)) && store.tables == old(store.tables)
    ensures IsValidTableId(tableId) && old(store.tables)[tableId].status == Reserved ==>
      r == Fail(AlreadyReserved) && store.tables == old(store.tables)
    ensures IsValidTableId(tableId) && old(store.tables)[tableId].status == Free ==>
      r == Pass && store.tables == old(store.tables)[tableId := Table(Reserved, Some(name), None)]
  {
    var table := store.GetTable(tableId);
    if table.Failure? {
      return Fail(table.error);
    }
    if table.value.status == Reserved {
      return Fail(AlreadyReserved);
    }
    r := store.ReserveTable(tableId, name);
  }

  /** Whether `createOrder` turns the guest away: the table is held under
      another name. */
  predicate HeldByOther(t: Table, name: string) {
    t.status == Reserved && t.reservedBy != Some(name)
  }

  /** `createOrder`: a table held under another name is refused; an empty
      item id succeeds without touching the store (the table is NOT
      reserved); otherwise the store places the order and broadcasts it.
      `orderId` and `now` stand for `crypto.randomUUID()` and `new Date()`;
      `dead` is the set of subscribers whose send fails. */
  method CreateOrder(store: Store, tableId: int, name: string, itemId: string,
                     orderId: string, now: Timestamp, dead: set<Channel>)
    returns (r: Result<Option<Order>, string>, sent: seq<Message>)
    requires store.Valid()
    modifies store
    ensures store.Valid()
    ensures !IsValidTableId(tableId) ==>
      r == Failure(InvalidTableIdMessage(tableId)) && sent == [] && store.tables == old(store.tables) && store.subs == old(store.subs)
    ensures IsValidTableId(tableId) && HeldByOther(old(store.tables)[tableId], name) ==>
      r == Failure(AlreadyReserved) && sent == [] && store.tables == old(store.tables) && store.subs == old(store.subs)
    ensures IsValidTableId(tableId) && !HeldByOther(old(store.tables)[tableId], name) && itemId == [] ==>
      r == Success(None) && sent == [] && store.tables == old(store.tables) && store.subs == old(store.subs)
    ensures IsValidTableId(tableId) && !HeldByOther(old(store.tables)[tableId], name) && itemId != []
            && FindItem(MenuData.MenuItems, itemId).None? ==>
      r == Failure(MenuItemNotFound) && sent == [] && store.tables == old(store.tables) && store.subs == old(store.subs)
    ensures IsValidTableId(tableId) && !HeldByOther(old(store.tables)[tableId], name) && itemId != []
            && FindItem(MenuData.MenuItems, itemId).Some? ==>
      var order := Order(orderId, tableId, name, ItemSnapshot(FindItem(MenuData.MenuItems, itemId).value), OrderReceived, now);
      var d := Broadcast(SubscribersOf(old(store.subs), tableId), dead);
      && r == Success(Some(order))
      && store.tables == old(store.tables)[tableId := Table(Reserved, Some(name), Some(order))]
      && sent == Messages(d.sent, order)
      && store.subs == WithSubscribers(old(store.subs), tableId, d.kept)
  {
    var table := store.GetTable(tableId);
    if table.Failure? {
      return Failure(table.error), [];
    }
    if table.value.status == Reserved && table.value.reservedBy != Some(name) {
      return Failure(AlreadyReserved), [];
    }
    if itemId == [] {
      return Success(None), [];
    }
    var placed;
    placed, sent := store.CreateOrder(tableId, name, itemId, MenuData.MenuItems, orderId, now, dead);
    match placed
    case Success(order) => r := Success(Some(order));
    case Failure(e) => r := Failure(e);
  }

  /** `updateOrderStatus`: any status, `Idle` included, replaces the
      table's order status; a table without an order is an error. */
  method UpdateOrderStatus(store: Store, tableId: int, status: OrderStatus, dead: set<Channel>)
    returns (r: Outcome<string>, sent: seq<Message>)
    requires store.Valid()
    modifies store
    ensures store.Valid()
    ensures !IsValidTableId(tableId) ==>
      r == Fail(InvalidTableIdMessage(tableId)) && sent == [] && store.tables == old(store.tables) && store.subs == old(store.subs)
    ensures IsValidTableId(tableId) && old(store.tables)[tableId].order.None? ==>
      r == Fail(OrderNotFound) && sent == [] && store.tables == old(store.tables) && store.subs == old(store.subs)
    ensures IsValidTableId(tableId) && old(store.tables)[tableId].order.Some? ==>
      var before := old(store.tables)[tableId];
      var order := before.order.value.(status := status);
      var d := Broadcast(SubscribersOf(old(store.subs), tableId), dead);
      && r == Pass
      && store.tables == old(store.tables)[tableId := before.(order := Some(order))]
      && sent == Messages(d.sent, order)
      && store.subs == WithSubscribers(old(store.subs), tableId, d.kept)
  {
    r, sent := store.UpdateOrderStatus(tableId, status, dead);
  }

  /** `freeTable`: the table goes back to free, with no name and no order. */
  method FreeTable(store: Store, tableId: int) returns (r: Outcome<string>)
    requires store.Valid()
    modifies store
    ensures store.Valid()
    ensures store.subs == old(store.subs)
    ensures !IsValidTableId(tableId) ==>
      r == Fail(InvalidTableIdMessage(tableId)) && store.tables == old(store.tables)
    ensures IsValidTableId(tableId) ==> r == Pass && store.tables == old(store.tables)[tableId := Vacant]
  {
    r := store.FreeTable(tableId);
  }
}
