/** The tables of the inventory, reservation and order protocol, and the database object that holds them.

Primary keys are integers handed out by the database. Foreign keys and CHECK constraints are not assumed: the
operations model the foreign keys, and the proofs show that no CHECK constraint is ever violated.
*/
module Schema {

  datatype Option<+T> = None | Some(value: T)

  /** The one warehouse of the current phase, seeded with code DEFAULT. */
  const DEFAULT_WAREHOUSE := 1

  /** The unique key of WarehouseInventory. */
  datatype Key = Key(warehouseId: int, variantId: int)

  datatype Row = Row(stock: int, reserved: int)

  /** The write-through cache columns of Variant. */
  datatype Variant = Variant(stock: int, reservedStock: int, soldCount: int)

  /** WarehouseInventory is authoritative, Variant is its cache. */
  datatype Inventory = Inventory(rows: map<Key, Row>, variants: map<int, Variant>)

  /** One quantity of one variant held at one warehouse. */
  datatype Line = Line(warehouseId: int, variantId: int, quantity: int) {
    function AtKey(): Key {
      Key(warehouseId, variantId)
    }
  }

  datatype ReservationStatus = ACTIVE | CONSUMED | EXPIRED

  datatype Reservation = Reservation(userId: int, status: ReservationStatus, expiresAt: int, isFlash: bool,
                                     items: seq<Line>)

  datatype OrderStatus =
    | PENDING | CONFIRMED | PROCESSING | CANCELLING | SHIPPED | DELIVERED | CANCELLED | RETURN_REQUESTED | RETURNED
    | REFUNDED

  datatype OrderItem = OrderItem(variantId: int, quantity: int, cancelled: bool)

  /** Guest orders have no user. */
  datatype Order = Order(userId: Option<int>, status: OrderStatus, items: seq<OrderItem>)

  datatype Tables = Tables(inv: Inventory, reservations: map<int, Reservation>, orders: map<int, Order>)

  /** The statuses in which an order still holds its reserved units. */
  predicate PreShipment(status: OrderStatus) {
    status.PENDING? || status.CONFIRMED? || status.PROCESSING?
  }

  /** The uncancelled items of an order, as held lines. */
  function ActiveLines(items: seq<OrderItem>): seq<Line> {
    if items == [] then []
    else
      var last := items[|items| - 1];
      ActiveLines(items[..|items| - 1])
      + if last.cancelled then [] else [Line(DEFAULT_WAREHOUSE, last.variantId, last.quantity)]
  }

  /** A transaction client: each field is one table. */
  class Database {
    var rows: map<Key, Row>
    var variants: map<int, Variant>
    var reservations: map<int, Reservation>
    var orders: map<int, Order>

    constructor (t: Tables)
      ensures Contents() == t
    {
      rows, variants := t.inv.rows, t.inv.variants;
      reservations, orders := t.reservations, t.orders;
    }

    function Inv(): Inventory
      reads this`rows, this`variants
    {
      Inventory(rows, variants)
    }

    function Contents(): Tables
      reads this
    {
      Tables(Inv(), reservations, orders)
    }

    /** Undoes every write of a transaction that threw. */
    method Rollback(saved: Tables)
      modifies this
      ensures Contents() == saved
    {
      rows, variants := saved.inv.rows, saved.inv.variants;
      reservations, orders := saved.reservations, saved.orders;
    }
  }
}
