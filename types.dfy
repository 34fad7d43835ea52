/** The records shared by the store, the actions and the live-status
    endpoint (lib/types.ts). Prices are whole euro cents. */
module Types {
  import opened Wrappers

  datatype TableStatus = Free | Reserved

  /** The order life cycle. `OrderOnTheyWayToTable` keeps the spelling of
      the application's own status literal. */
  datatype OrderStatus =
    | Idle
    | OrderReceived
    | OrderPreparing
    | OrderOnTheyWayToTable
    | OrderServed

  /** Milliseconds since the epoch, as a `Date` holds them. */
  type Timestamp = int

  /** A price in euro cents (the application keeps euros as a float). */
  type Cents = int

  datatype MenuItem = MenuItem(
    id: string,
    name: string,
    description: string,
    price: Cents,
    image: Option<string>)

  datatype Order = Order(
    id: string,
    tableId: int,
    name: string,
    item: MenuItem,
    status: OrderStatus,
    createdAt: Timestamp)

  datatype Table = Table(
    status: TableStatus,
    reservedBy: Option<string>,
    order: Option<Order>)
}
