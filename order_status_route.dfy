/** `GET /api/order-status?tableId=…` (app/api/order-status/route.ts): checks
    the query parameter and the table, then opens an event stream that
    starts with the table's current order, pings every 30 seconds, and
    unregisters its channel when a ping fails or the client goes away. */
module OrderStatusRoute {
  import opened Wrappers
  import opened Types
  import opened JsText
  import opened Fanout
  import opened RestaurantStore

  /** What one request gets back: a plain-text error response, or an event
      stream for a table whose first frame carries `snapshot`. */
  datatype Reply = Plain(status: int, body: string) | EventStream(tableId: int, snapshot: Order)

  /** A frame the handler itself writes to its channel: `data: <order>` or
      the `: ping` comment line. */
  datatype Frame = Data(order: Order) | Ping

  const TableIdRequired := "tableId parameter is required"
  const InvalidTableId := "Invalid tableId"

  /** The response the handler chooses for the query value `param` (None
      when `tableId` is absent), given the store's tables. */
  function Decide(param: Option<string>, tables: map<int, Table>): (reply: Reply)
    requires forall id :: IsValidTableId(id) ==> id in tables
    ensures param.None? || param.value == [] ==> reply == Plain(400, TableIdRequired)
    ensures param.Some? && param.value != [] && ParseInt(param.value).None? ==> reply == Plain(400, InvalidTableId)
    ensures reply.Plain? ==> reply.status == 400 || reply.status == 404
    ensures reply.Plain? && reply.status == 404 ==> reply.body == OrderNotFound
    ensures reply.EventStream? ==>
      && param.Some? && ParseInt(param.value) == Some(reply.tableId)
      && IsValidTableId(reply.tableId)
      && tables[reply.tableId].order == Some(reply.snapshot)
  {
    if param.None? || param.value == [] then Plain(400, TableIdRequired)
    else match ParseInt(param.value)
      case None => Plain(400, InvalidTableId)
      case Some(id) =>
        if !IsValidTableId(id) then Plain(400, InvalidTableId)
        else if tables[id].order.None? then Plain(404, OrderNotFound)
        else EventStream(id, tables[id].order.value)
  }

  /** A request naming a table by its number, with optional white space
      before it and any non-digit text after it, streams that table's
      order when it has one and is answered 404 when it has none. */
  lemma NumberedRequest(blank: string, id: int, rest: string, tables: map<int, Table>)
    requires forall id :: IsValidTableId(id) ==> id in tables
    requires forall k :: 0 <= k < |blank| ==> IsWhitespace(blank[k])
    requires rest == [] || !IsDigit(rest[0])
    requires IsValidTableId(id)
    ensures tables[id].order.Some? ==>
      Decide(Some(blank + IntToString(id) + rest), tables) == EventStream(id, tables[id].order.value)
    ensures tables[id].order.None? ==>
      Decide(Some(blank + IntToString(id) + rest), tables) == Plain(404, OrderNotFound)
  {
    ParseIntOfIntToString(blank, id, rest);
  }

  /** Once the parameter reads as a number, the answer depends only on
      that number and the table it names. */
  lemma DecideOfNumber(param: string, id: int, tables: map<int, Table>)
    requires forall id :: IsValidTableId(id) ==> id in tables
    requires param != [] && ParseInt(param) == Some(id)
    ensures Decide(Some(param), tables)
         == if !IsValidTableId(id) then Plain(400, InvalidTableId)
            else if tables[id].order.None? then Plain(404, OrderNotFound)
            else EventStream(id, tables[id].order.value)
  {
  }

  /** A number outside the registry is a bad request (400), never "not
      found" (404), whatever text follows it. */
  lemma UnknownTableIsBadRequest(id: int, rest: string, tables: map<int, Table>)
    requires forall id :: IsValidTableId(id) ==> id in tables
    requires rest == [] || !IsDigit(rest[0])
    requires !IsValidTableId(id)
    ensures Decide(Some(IntToString(id) + rest), tables) == Plain(400, InvalidTableId)
  {
    ParseIntOfNumeral(id, rest);
    DecideOfNumber(IntToString(id) + rest, id, tables);
  }

  /** Text after the number does not change the answer: `?tableId=3abc`
      is handled like `?tableId=3`. */
  lemma TrailingTextIgnored(id: int, rest: string, tables: map<int, Table>)
    requires forall id :: IsValidTableId(id) ==> id in tables
    requires rest == [] || !IsDigit(rest[0])
    ensures Decide(Some(IntToString(id) + rest), tables) == Decide(Some(IntToString(id)), tables)
  {
    var numeral := IntToString(id);
    ParseIntOfNumeral(id, rest);
    ParseIntOfNumeral(id, []);
    assert numeral + [] == numeral;
    DecideOfNumber(numeral + rest, id, tables);
    DecideOfNumber(numeral, id, tables);
  }

  /** One open event stream: the channel registered for `tableId`, its
      30-second ping timer, and the frames the handler wrote to it. Frames
      broadcast by the store are the store's `sent` results and are not
      repeated in `log`. */
  class Subscription {
    const store: Store
    const tableId: int
    const channel: Channel
    var pinging: bool
    var closed: bool
    var log: seq<Frame>

    /** The stream's `start`: register the channel, send the table's
        current order, start the ping timer. */
    constructor Start(store: Store, tableId: int, channel: Channel, snapshot: Order)
      requires store.Valid() && IsValidTableId(tableId)
      requires store.tables[tableId].order == Some(snapshot)
      modifies store
      ensures store.Valid() && store.tables == old(store.tables)
      ensures store.subs == old(store.subs)[tableId := SubscribersOf(old(store.subs), tableId) + [channel]]
      ensures this.store == store && this.tableId == tableId && this.channel == channel
      ensures log == [Data(snapshot)] && pinging && !closed
    {
      this.store := store;
      this.tableId := tableId;
      this.channel := channel;
      new;
      var _ := store.AddSSEConnection(tableId, channel);
      log := [Data(snapshot)];
      pinging := true;
      closed := false;
    }

    /** One tick of the ping timer. `dead` is the set of channels whose
        write fails; a failed ping stops the timer and unregisters the
        channel. Returns whether the ping went out. */
    method Heartbeat(dead: set<Channel>) returns (delivered: bool)
      requires store.Valid() && IsValidTableId(tableId)
      modifies this, store
      ensures store.Valid() && store.tables == old(store.tables)
      ensures closed == old(closed)
      ensures !old(pinging) ==>
        !delivered && !pinging && log == old(log) && store.subs == old(store.subs)
      ensures old(pinging) && channel !in dead ==>
        delivered && pinging && log == old(log) + [Ping] && store.subs == old(store.subs)
      ensures old(pinging) && channel in dead ==>
        && !delivered && !pinging && log == old(log)
        && store.subs == WithSubscribers(old(store.subs), tableId, RemoveFirst(SubscribersOf(old(store.subs), tableId), channel))
    {
      if !pinging {
        return false;
      }
      if channel in dead {
        pinging := false;
        var _ := store.RemoveSSEConnection(tableId, channel);
        return false;
      }
      log := log + [Ping];
      delivered := true;
    }

    /** The request's `abort` event: stop the timer, unregister the channel
        and close it (closing a channel that is already closed is
        ignored). */
    method Abort()
      requires store.Valid() && IsValidTableId(tableId)
      modifies this, store
      ensures store.Valid() && store.tables == old(store.tables)
      ensures !pinging && closed && log == old(log)
      ensures store.subs == WithSubscribers(old(store.subs), tableId, RemoveFirst(SubscribersOf(old(store.subs), tableId), channel))
      ensures multiset(SubscribersOf(old(store.subs), tableId))[channel] <= 1 ==>
        channel !in SubscribersOf(store.subs, tableId)
    {
      pinging := false;
      var _ := store.RemoveSSEConnection(tableId, channel);
      if multiset(SubscribersOf(old(store.subs), tableId))[channel] <= 1 {
        RemovedChannelIsGone(old(store.subs), tableId, channel);
      }
      closed := true;
    }
  }

  /** The handler: answers as `Decide` says and, for an event stream,
      registers `channel` (the new stream's controller) with the store. */
  method Get(store: Store, param: Option<string>, channel: Channel) returns (reply: Reply, sub: Subscription?)
    requires store.Valid()
    modifies store
    ensures store.Valid() && store.tables == old(store.tables)
    ensures reply == Decide(param, old(store.tables))
    ensures reply.Plain? ==> sub == null && store.subs == old(store.subs)
    ensures reply.EventStream? ==>
      && sub != null && fresh(sub)
      && sub.store == store && sub.tableId == reply.tableId && sub.channel == channel
      && sub.log == [Data(reply.snapshot)] && sub.pinging && !sub.closed
      && store.subs == old(store.subs)[reply.tableId := SubscribersOf(old(store.subs), reply.tableId) + [channel]]
  {
    sub := null;
    if param.None? || param.value == [] {
      return Plain(400, TableIdRequired), null;
    }
    var parsed := ParseInt(param.value);
    if parsed.None? {
      return Plain(400, InvalidTableId), null;
    }
    var tableId := parsed.value;
    var table := store.GetTable(tableId);
    if table.Failure? {
      return Plain(400, InvalidTableId), null;
    }
    if table.value.order.None? {
      return Plain(404, OrderNotFound), null;
    }
    reply := EventStream(tableId, table.value.order.value);
    sub := new Subscription.Start(store, tableId, channel, table.value.order.value);
  }
}
