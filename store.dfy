/** The process-wide restaurant store (lib/store.ts): a fixed registry of
    tables 1..10 with their reservation and order, and per table the list of
    open event-stream channels that receive every order change. */
module RestaurantStore {
  import opened Wrappers
  import opened Types
  import opened Fanout
  import JsText

  /** Number of tables registered at start; their ids are 1..TableCount. */
  const TableCount := 10

  predicate IsValidTableId(id: int) {
    1 <= id <= TableCount
  }

  /** `Object.keys(tables).map(Number)`: the registry ids, ascending. */
  function TableNumbers(): (ids: seq<int>)
    ensures |ids| == TableCount
    ensures forall i :: 0 <= i < |ids| ==> ids[i] == i + 1
  {
    seq(TableCount, i => i + 1)
  }

  /** The numbers listed are exactly the valid ids, each once, ascending. */
  lemma TableNumbersAreTheRegistry()
    ensures forall id :: id in TableNumbers() <==> IsValidTableId(id)
    ensures forall i, j :: 0 <= i < j < |TableNumbers()| ==> TableNumbers()[i] < TableNumbers()[j]
  {
    var ids := TableNumbers();
    forall id | IsValidTableId(id) ensures id in ids {
      assert ids[id - 1] == id;
    }
  }

  /** `ids.join(", ")` over decimal renderings. */
  function JoinNumbers(ids: seq<int>): string {
    if ids == [] then ""
    else if |ids| == 1 then JsText.IntToString(ids[0])
    else JsText.IntToString(ids[0]) + ", " + JoinNumbers(ids[1..])
  }

  function InvalidTableIdMessage(id: int): string {
    "Invalid table ID: " + JsText.IntToString(id) + ". Valid tables are: " + JoinNumbers(TableNumbers())
  }

  const MenuItemNotFound := "Menu item not found"
  const OrderNotFound := "Order not found"

  /** `validateTableId`: passes on a registered id, otherwise fails with the
      message the store throws. */
  function ValidateTableId(id: int): (r: Outcome<string>)
    ensures r.Pass? <==> IsValidTableId(id)
    ensures r.Fail? ==> r.error == InvalidTableIdMessage(id)
  {
    if IsValidTableId(id) then Pass else Fail(InvalidTableIdMessage(id))
  }

  /** The record every table starts with and `freeTable` writes back. */
  const Vacant := Table(Free, None, None)

  /** What every table record of the store satisfies: a name is recorded
      exactly when the table is reserved, a free table holds no order, and
      an order names the table it sits on. */
  predicate WellFormedTable(id: int, t: Table) {
    && (t.status == Free <==> t.reservedBy == None)
    && (t.status == Free ==> t.order == None)
    && (t.order.Some? ==> t.order.value.tableId == id)
  }

  /** `menuItems.find(item => item.id === itemId)`, as a position. */
  function FindIndex(menu: seq<MenuItem>, itemId: string): (r: Option<nat>)
    ensures r.Some? ==> r.value < |menu| && menu[r.value].id == itemId
    ensures r.Some? ==> forall j :: 0 <= j < r.value ==> menu[j].id != itemId
    ensures r.None? ==> forall j :: 0 <= j < |menu| ==> menu[j].id != itemId
  {
    if menu == [] then None
    else if menu[0].id == itemId then Some(0)
    else match FindIndex(menu[1..], itemId)
      case None => None
      case Some(i) => Some(i + 1)
  }

  function FindItem(menu: seq<MenuItem>, itemId: string): Option<MenuItem> {
    match FindIndex(menu, itemId)
    case None => None
    case Some(i) => Some(menu[i])
  }

  /** The copy of a menu entry an order keeps: id, name, description and
      price; the image is not copied. */
  function ItemSnapshot(m: MenuItem): MenuItem {
    MenuItem(m.id, m.name, m.description, m.price, None)
  }

  /** The channels registered for a table; a table without an entry has
      none. */
  function SubscribersOf(subs: map<int, seq<Channel>>, id: int): seq<Channel> {
    if id in subs then subs[id] else []
  }

  /** The subscriber map after a table's list became `list`: an emptied
      list loses its entry. */
  function WithSubscribers(subs: map<int, seq<Channel>>, id: int, list: seq<Channel>): map<int, seq<Channel>> {
    if list == [] then subs - {id} else subs[id := list]
  }

  /** One `data: <order>` frame written to one subscriber's channel. */
  datatype Message = Message(to: Channel, data: Order)

  /** The frames a broadcast of `order` writes: one per receiving channel,
      in delivery order, every one carrying that same order. */
  function Messages(receivers: seq<Channel>, order: Order): (m: seq<Message>)
    ensures |m| == |receivers|
    ensures forall i :: 0 <= i < |m| ==> m[i].to == receivers[i] && m[i].data == order
  {
    seq(|receivers|, i requires 0 <= i < |receivers| => Message(receivers[i], order))
  }

  lemma WithSubscribersTwice(subs: map<int, seq<Channel>>, id: int, first: seq<Channel>, second: seq<Channel>)
    ensures WithSubscribers(WithSubscribers(subs, id, first), id, second) == WithSubscribers(subs, id, second)
  {
  }

  lemma WithSubscribersUnchanged(subs: map<int, seq<Channel>>, id: int)
    requires id in subs ==> subs[id] != []
    ensures WithSubscribers(subs, id, SubscribersOf(subs, id)) == subs
  {
  }

  /** Removing a channel that was registered at most once leaves none of
      it behind. */
  lemma RemovedChannelIsGone(subs: map<int, seq<Channel>>, id: int, c: Channel)
    requires multiset(SubscribersOf(subs, id))[c] <= 1
    ensures c !in SubscribersOf(WithSubscribers(subs, id, RemoveFirst(SubscribersOf(subs, id), c)), id)
  {
    var list := SubscribersOf(subs, id);
    RemoveFirstMultiset(list, c);
    assert multiset(RemoveFirst(list, c))[c] == 0;
  }

  /** Registering a new channel and then removing it gives back the
      subscriber map it started from. */
  lemma SubscribeThenUnsubscribe(subs: map<int, seq<Channel>>, id: int, c: Channel)
    requires id in subs ==> subs[id] != []
    requires c !in SubscribersOf(subs, id)
    ensures var added := subs[id := SubscribersOf(subs, id) + [c]];
      WithSubscribers(added, id, RemoveFirst(SubscribersOf(added, id), c)) == subs
  {
    var list := SubscribersOf(subs, id);
    var longer := list + [c];
    var i := IndexOf(longer, c);
    assert longer[..|list|] == list;
    assert i == |list|;
    assert longer[..i] == list && longer[i + 1..] == [];
    assert RemoveFirst(longer, c) == list;
  }

  datatype TableEntry = TableEntry(tableId: int, table: Table)

  function Entries(tables: map<int, Table>, ids: seq<int>): (r: seq<TableEntry>)
    requires forall i :: 0 <= i < |ids| ==> ids[i] in tables
    ensures |r| == |ids|
    ensures forall i :: 0 <= i < |ids| ==> r[i] == TableEntry(ids[i], tables[ids[i]])
  {
    if ids == [] then [] else [TableEntry(ids[0], tables[ids[0]])] + Entries(tables, ids[1..])
  }

  class Store {
    var tables: map<int, Table>
    var subs: map<int, seq<Channel>>

    /** The registry is exactly 1..10, every record is well formed, and a
        subscriber list is kept only for a registered table and only while
        it is non-empty. */
    ghost predicate Valid()
      reads this
    {
      && (forall id :: id in tables <==> IsValidTableId(id))
      && (forall id :: id in tables ==> WellFormedTable(id, tables[id]))
      && (forall id :: id in subs ==> IsValidTableId(id) && subs[id] != [])
    }

    constructor ()
      ensures Valid()
      ensures forall id :: id in tables ==> tables[id] == Vacant
      ensures subs == map[]
    {
      TableNumbersAreTheRegistry();
      tables := map id | id in TableNumbers() :: Vacant;
      subs := map[];
    }

    function GetTable(tableId: int): (r: Result<Table, string>)
      reads this
      requires Valid()
      ensures r.Success? <==> IsValidTableId(tableId)
      ensures r.Success? ==> r.value == tables[tableId] && WellFormedTable(tableId, r.value)
      ensures r.Failure? ==> r.error == InvalidTableIdMessage(tableId)
    {
      if IsValidTableId(tableId) then Success(tables[tableId]) else Failure(InvalidTableIdMessage(tableId))
    }

    /** `Object.entries(this.tables)`: one entry per table, by ascending id. */
    function GetAllTables(): (entries: seq<TableEntry>)
      reads this
      requires Valid()
      ensures |entries| == TableCount
      ensures forall i :: 0 <= i < |entries| ==> entries[i] == TableEntry(i + 1, tables[i + 1])
    {
      Entries(tables, TableNumbers())
    }

    method ReserveTable(tableId: int, name: string) returns (r: Outcome<string>)
      requires Valid()
      modifies this
      ensures Valid()
      ensures subs == old(subs)
      ensures r == ValidateTableId(tableId)
      ensures r.Fail? ==> tables == old(tables)
      ensures r.Pass? ==> tables == old(tables)[tableId := Table(Reserved, Some(name), old(tables)[tableId].order)]
    {
      r := ValidateTableId(tableId);
      if r.Fail? {
        return;
      }
      tables := tables[tableId := tables[tableId].(status := Reserved, reservedBy := Some(name))];
    }

    method CreateOrder(tableId: int, name: string, itemId: string, menu: seq<MenuItem>,
                       orderId: string, now: Timestamp, dead: set<Channel>)
      returns (r: Result<Order, string>, sent: seq<Message>)
      requires Valid()
      modifies this
      ensures Valid()
      ensures !IsValidTableId(tableId) ==>
        r == Failure(InvalidTableIdMessage(tableId)) && sent == [] && tables == old(tables) && subs == old(subs)
      ensures IsValidTableId(tableId) && FindItem(menu, itemId).None? ==>
        r == Failure(MenuItemNotFound) && sent == [] && tables == old(tables) && subs == old(subs)
      ensures IsValidTableId(tableId) && FindItem(menu, itemId).Some? ==>
        var order := Order(orderId, tableId, name, ItemSnapshot(FindItem(menu, itemId).value), OrderReceived, now);
        var before := old(tables)[tableId];
        var holder := if before.status == Reserved then before.reservedBy else Some(name);
        var d := Broadcast(SubscribersOf(old(subs), tableId), dead);
        && r == Success(order)
        && tables == old(tables)[tableId := Table(Reserved, holder, Some(order))]
        && sent == Messages(d.sent, order)
        && subs == WithSubscribers(old(subs), tableId, d.kept)
    {
      var check := ValidateTableId(tableId);
      if check.Fail? {
        return Failure(check.error), [];
      }
      var item := FindItem(menu, itemId);
      if item.None? {
        return Failure(MenuItemNotFound), [];
      }
      var order := Order(orderId, tableId, name, ItemSnapshot(item.value), OrderReceived, now);
      if tables[tableId].status != Reserved {
        tables := tables[tableId := tables[tableId].(status := Reserved, reservedBy := Some(name))];
      }
      tables := tables[tableId := tables[tableId].(order := Some(order))];
      var validated;
      validated, sent := BroadcastToTable(tableId, order, dead);
      r := Success(order);
    }

    method UpdateOrderStatus(tableId: int, status: OrderStatus, dead: set<Channel>)
      returns (r: Outcome<string>, sent: seq<Message>)
      requires Valid()
      modifies this
      ensures Valid()
      ensures !IsValidTableId(tableId) ==>
        r == Fail(InvalidTableIdMessage(tableId)) && sent == [] && tables == old(tables) && subs == old(subs)
      ensures IsValidTableId(tableId) && old(tables)[tableId].order.None? ==>
        r == Fail(OrderNotFound) && sent == [] && tables == old(tables) && subs == old(subs)
      ensures IsValidTableId(tableId) && old(tables)[tableId].order.Some? ==>
        var before := old(tables)[tableId];
        var order := before.order.value.(status := status);
        var d := Broadcast(SubscribersOf(old(subs), tableId), dead);
        && r == Pass
        && tables == old(tables)[tableId := before.(order := Some(order))]
        && sent == Messages(d.sent, order)
        && subs == WithSubscribers(old(subs), tableId, d.kept)
    {
      r := ValidateTableId(tableId);
      if r.Fail? {
        return r, [];
      }
      var table := tables[tableId];
      if table.order.None? {
        return Fail(OrderNotFound), [];
      }
      var order := table.order.value.(status := status);
      tables := tables[tableId := table.(order := Some(order))];
      var validated;
      validated, sent := BroadcastToTable(tableId, order, dead);
    }

    method FreeTable(tableId: int) returns (r: Outcome<string>)
      requires Valid()
      modifies this
      ensures Valid()
      ensures subs == old(subs)
      ensures r == ValidateTableId(tableId)
      ensures r.Fail? ==> tables == old(tables)
      ensures r.Pass? ==> tables == old(tables)[tableId := Vacant]
    {
      r := ValidateTableId(tableId);
      if r.Fail? {
        return;
      }
      tables := tables[tableId := Vacant];
    }

    method AddSSEConnection(tableId: int, channel: Channel) returns (r: Outcome<string>)
      requires Valid()
      modifies this
      ensures Valid()
      ensures tables == old(tables)
      ensures r == ValidateTableId(tableId)
      ensures r.Fail? ==> subs == old(subs)
      ensures r.Pass? ==> subs == old(subs)[tableId := SubscribersOf(old(subs), tableId) + [channel]]
    {
      r := ValidateTableId(tableId);
      if r.Fail? {
        return;
      }
      if tableId !in subs {
        subs := subs[tableId := []];
      }
      subs := subs[tableId := subs[tableId] + [channel]];
    }

    method RemoveSSEConnection(tableId: int, channel: Channel) returns (r: Outcome<string>)
      requires Valid()
      modifies this
      ensures Valid()
      ensures tables == old(tables)
      ensures r == ValidateTableId(tableId)
      ensures r.Fail? ==> subs == old(subs)
      ensures r.Pass? ==> subs == WithSubscribers(old(subs), tableId, RemoveFirst(SubscribersOf(old(subs), tableId), channel))
    {
      r := ValidateTableId(tableId);
      if r.Fail? {
        return;
      }
      if tableId in subs {
        var connections := subs[tableId];
        if channel in connections {
          var index := IndexOf(connections, channel);
          connections := connections[..index] + connections[index + 1..];
        }
        if |connections| == 0 {
          subs := subs - {tableId};
        } else {
          subs := subs[tableId := connections];
        }
      }
    }

    /** Sends the order to every channel of the table, in list order; a
        channel whose send fails (one in `dead`) is removed through
        `RemoveSSEConnection` while the walk goes on over the same list.
        `sent` lists the frames written, one `data: <order>` per channel
        that received it. */
    method BroadcastToTable(tableId: int, order: Order, dead: set<Channel>)
      returns (r: Outcome<string>, sent: seq<Message>)
      requires Valid()
      modifies this
      ensures Valid()
      ensures tables == old(tables)
      ensures r == ValidateTableId(tableId)
      ensures r.Fail? ==> sent == [] && subs == old(subs)
      ensures r.Pass? ==>
        var d := Broadcast(SubscribersOf(old(subs), tableId), dead);
        sent == Messages(d.sent, order) && subs == WithSubscribers(old(subs), tableId, d.kept)
    {
      sent := [];
      r := ValidateTableId(tableId);
      if r.Fail? {
        return;
      }
      if tableId !in subs {
        WithSubscribersUnchanged(subs, tableId);
        return;
      }
      var connections := subs[tableId];
      ghost var initial := connections;
      ghost var receivers: seq<Channel> := [];
      WithSubscribersUnchanged(subs, tableId);
      var len := |connections|;
      var k := 0;
      while k < len
        invariant 0 <= k <= len
        invariant Valid()
        invariant tables == old(tables)
        invariant subs == WithSubscribers(old(subs), tableId, connections)
        invariant sent == Messages(receivers, order)
        invariant Broadcast(initial, dead)
               == Delivery(receivers + Walk(connections, dead, k, len).sent, Walk(connections, dead, k, len).kept)
      {
        if k < |connections| {
          var channel := connections[k];
          if channel in dead {
            WithSubscribersTwice(old(subs), tableId, connections, RemoveFirst(connections, channel));
            var _ := RemoveSSEConnection(tableId, channel);
            connections := RemoveFirst(connections, channel);
          } else {
            ghost var rest := Walk(connections, dead, k + 1, len);
            assert (receivers + [channel]) + rest.sent == receivers + ([channel] + rest.sent);
            receivers := receivers + [channel];
            sent := sent + [Message(channel, order)];
          }
        }
        k := k + 1;
      }
      assert receivers + [] == receivers;
    }
  }
}
