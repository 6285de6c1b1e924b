/** The transactions of CartReservationService and OrdersService on all tables. `None` means the transaction threw and
    was rolled back. */
module Orders {
  import opened Schema
  import opened InventoryMoves
  import opened Reservations

  /** A cart row; the cart table keeps quantities positive. */
  datatype CartItem = CartItem(variantId: int, quantity: int)

  /** A requested guest order line. */
  datatype GuestItem = GuestItem(variantId: int, quantity: int, allowBackorder: bool)

  function CartLines(cart: seq<CartItem>): seq<Line> {
    seq(|cart|, i requires 0 <= i < |cart| => Line(DEFAULT_WAREHOUSE, cart[i].variantId, cart[i].quantity))
  }

  function CreateReservation(t: Tables, id: int, userId: int, cart: seq<CartItem>, expiresAt: int, isFlash: bool)
    : Option<Tables>
  {
    if cart == [] then None
    else
      match ReserveLines(t.inv, CartLines(cart))
      case None => None
      case Some(inv) =>
        Some(t.(inv := inv,
                reservations := t.reservations[id := Reservation(userId, ACTIVE, expiresAt, isFlash, CartLines(cart))]))
  }

  /** validateForCheckout: what a checkout may rely on having read. The price comparison is the caller's input. */
  predicate ValidForCheckout(t: Tables, id: int, userId: int, now: int, pricesHold: bool) {
    && id in t.reservations && t.reservations[id].userId == userId && t.reservations[id].status.ACTIVE?
    && t.reservations[id].expiresAt > now && pricesHold
  }

  function OrderItems(lines: seq<Line>): seq<OrderItem> {
    seq(|lines|, i requires 0 <= i < |lines| => OrderItem(lines[i].variantId, lines[i].quantity, false))
  }

  /** The transaction of placeOrder. The items were read before it; the coupon update may reject it. */
  function PlaceOrder(t: Tables, orderId: int, userId: int, id: int, items: seq<Line>, couponOk: bool): Option<Tables> {
    match Consume(t.reservations, id)
    case None => None
    case Some(reservations) =>
      if !couponOk then None
      else
        Some(t.(reservations := reservations,
                orders := t.orders[orderId := Order(Some(userId), PENDING, OrderItems(items))]))
  }

  function ReserveItems(inv: Inventory, items: seq<GuestItem>): Option<Inventory> {
    if items == [] then Some(inv)
    else
      var last := items[|items| - 1];
      match ReserveItems(inv, items[..|items| - 1])
      case None => None
      case Some(i) => Reserve(i, last.variantId, last.quantity, last.allowBackorder)
  }

  function GuestOrderItems(items: seq<GuestItem>): seq<OrderItem> {
    seq(|items|, i requires 0 <= i < |items| => OrderItem(items[i].variantId, items[i].quantity, false))
  }

  /** The transaction of placeGuestOrder. */
  function PlaceGuestOrder(t: Tables, orderId: int, items: seq<GuestItem>, couponOk: bool): Option<Tables> {
    match ReserveItems(t.inv, items)
    case None => None
    case Some(inv) =>
      if !couponOk then None
      else Some(t.(inv := inv, orders := t.orders[orderId := Order(None, PENDING, GuestOrderItems(items))]))
  }

  /** cancelOrder, which reads inside its transaction. */
  function CancelOrder(t: Tables, userId: int, orderId: int): Option<Tables> {
    if orderId !in t.orders || t.orders[orderId].userId != Some(userId) then None
    else
      var o := t.orders[orderId];
      if !o.status.PENDING? && !o.status.CONFIRMED? then None
      else
        Some(t.(inv := ReleaseLines(t.inv, ActiveLines(o.items)),
                orders := t.orders[orderId := o.(status := CANCELLED)]))
  }

  predicate AllCancelledBut(items: seq<OrderItem>, index: int) {
    forall i :: 0 <= i < |items| && i != index ==> items[i].cancelled
  }

  /** cancelOrderItem: every check is made on the order as it was read before the transaction. */
  function CancelOrderItem(t: Tables, userId: int, orderId: int, index: int, read: Order): Option<Tables> {
    if read.userId != Some(userId) || !PreShipment(read.status) then None
    else if index < 0 || |read.items| <= index || read.items[index].cancelled then None
    else if orderId !in t.orders || |t.orders[orderId].items| <= index then None
    else
      var o := t.orders[orderId];
      var item := o.items[index];
      Some(t.(inv := Release(t.inv, read.items[index].variantId, read.items[index].quantity),
              orders := t.orders[orderId := o.(
                  items := o.items[index := item.(cancelled := true)],
                  status := if AllCancelledBut(read.items, index) then CANCELLED else read.status)]))
  }

  /** updateOrderStatus to SHIPPED: the status and the items were read before the transaction. */
  function ShipOrder(t: Tables, orderId: int, read: Order): Option<Tables> {
    if orderId !in t.orders then None
    else
      var shipped := t.orders[orderId := t.orders[orderId].(status := SHIPPED)];
      if PreShipment(read.status) then
        match CommitLines(t.inv, ActiveLines(read.items))
        case None => None
        case Some(inv) => Some(t.(inv := inv, orders := shipped))
      else Some(t.(orders := shipped))
  }

  /** updateOrderStatus to any other status: touches no inventory. */
  function SetStatus(t: Tables, orderId: int, status: OrderStatus): Option<Tables> {
    if orderId !in t.orders then None
    else Some(t.(orders := t.orders[orderId := t.orders[orderId].(status := status)]))
  }

  function RestockVariant(t: Tables, v: int, qty: int): Option<Tables> {
    match Restock(t.inv, v, qty)
    case None => None
    case Some(inv) => Some(t.(inv := inv))
  }
}
