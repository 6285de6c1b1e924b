/** The transactions of OrdersService on the database. A false result is a throw: the database is as before. */
module OrdersService {
  import opened Schema
  import opened InventoryMoves
  import Orders
  import Reservations
  import InventoryService
  import CartReservationService

  /** The result of a transaction against the function that specifies it. */
  twostate predicate Committed(db: Database, ok: bool, expected: Option<Tables>)
    reads db
  {
    && (ok <==> expected.Some?)
    && db.Contents() == if expected.Some? then expected.value else old(db.Contents())
  }

  /** The transaction of placeOrder; the items come from the reservation as validated before. */
  method PlaceOrder(db: Database, orderId: int, userId: int, id: int, items: seq<Line>, couponOk: bool)
    returns (ok: bool)
    modifies db
    ensures Committed(db, ok, Orders.PlaceOrder(old(db.Contents()), orderId, userId, id, items, couponOk))
  {
    var saved := db.Contents();
    var orderItems: seq<OrderItem> := [];
    var i := 0;
    while i < |items|
      invariant 0 <= i <= |items|
      invariant orderItems == Orders.OrderItems(items[..i])
    {
      orderItems := orderItems + [OrderItem(items[i].variantId, items[i].quantity, false)];
      i := i + 1;
    }
    assert items[..i] == items;
    db.orders := db.orders[orderId := Order(Some(userId), PENDING, orderItems)];
    ok := CartReservationService.Consume(db, id);
    if !ok || !couponOk {
      db.Rollback(saved);
      ok := false;
    }
  }

  lemma {:induction false} ReserveItemsPrefix(inv: Inventory, items: seq<Orders.GuestItem>, n: nat)
    requires n <= |items| && Orders.ReserveItems(inv, items[..n]).None?
    ensures Orders.ReserveItems(inv, items).None?
    decreases |items|
  {
    if n == |items| {
      assert items[..n] == items;
    } else {
      assert items[..|items| - 1][..n] == items[..n];
      ReserveItemsPrefix(inv, items[..|items| - 1], n);
    }
  }

  /** The transaction of placeGuestOrder. */
  method PlaceGuestOrder(db: Database, orderId: int, items: seq<Orders.GuestItem>, couponOk: bool) returns (ok: bool)
    modifies db
    ensures Committed(db, ok, Orders.PlaceGuestOrder(old(db.Contents()), orderId, items, couponOk))
  {
    var saved := db.Contents();
    var i := 0;
    while i < |items|
      invariant 0 <= i <= |items|
      invariant Orders.ReserveItems(saved.inv, items[..i]) == Some(db.Inv())
      invariant db.orders == saved.orders && db.reservations == saved.reservations
    {
      assert items[..i + 1][..i] == items[..i];
      ok := InventoryService.Reserve(db, items[i].variantId, items[i].quantity, items[i].allowBackorder);
      if !ok {
        ReserveItemsPrefix(saved.inv, items, i + 1);
        db.Rollback(saved);
        return;
      }
      i := i + 1;
    }
    assert items[..i] == items;
    if !couponOk {
      db.Rollback(saved);
      return false;
    }
    db.orders := db.orders[orderId := Order(None, PENDING, Orders.GuestOrderItems(items))];
    ok := true;
  }

  /** items.filter((i) => !i.cancelledAt), as lines at DEFAULT. */
  method FilterActive(items: seq<OrderItem>) returns (lines: seq<Line>)
    ensures lines == ActiveLines(items)
  {
    lines := [];
    var i := 0;
    while i < |items|
      invariant 0 <= i <= |items|
      invariant lines == ActiveLines(items[..i])
    {
      assert items[..i + 1][..i] == items[..i];
      if !items[i].cancelled {
        lines := lines + [Line(DEFAULT_WAREHOUSE, items[i].variantId, items[i].quantity)];
      }
      i := i + 1;
    }
    assert items[..i] == items;
  }

  /** cancelOrder. */
  method CancelOrder(db: Database, userId: int, orderId: int) returns (ok: bool)
    modifies db
    ensures Committed(db, ok, Orders.CancelOrder(old(db.Contents()), userId, orderId))
  {
    if orderId !in db.orders || db.orders[orderId].userId != Some(userId) {
      return false;
    }
    var order := db.orders[orderId];
    if !order.status.PENDING? && !order.status.CONFIRMED? {
      return false;
    }
    ghost var start := db.Contents();
    var lines := FilterActive(order.items);
    var i := 0;
    while i < |lines|
      invariant 0 <= i <= |lines|
      invariant db.Inv() == ReleaseLines(start.inv, lines[..i])
      invariant db.orders == start.orders && db.reservations == start.reservations
    {
      assert lines[..i + 1][..i] == lines[..i];
      InventoryService.Release(db, lines[i].variantId, lines[i].quantity);
      i := i + 1;
    }
    assert lines[..i] == lines;
    db.orders := db.orders[orderId := order.(status := CANCELLED)];
    ok := true;
  }

  /** cancelOrderItem, deciding on the order as read before the transaction. */
  method CancelOrderItem(db: Database, userId: int, orderId: int, index: int, read: Order) returns (ok: bool)
    modifies db
    ensures Committed(db, ok, Orders.CancelOrderItem(old(db.Contents()), userId, orderId, index, read))
  {
    if read.userId != Some(userId) || !PreShipment(read.status) || index < 0 || |read.items| <= index
       || read.items[index].cancelled {
      return false;
    }
    if orderId !in db.orders || |db.orders[orderId].items| <= index {
      return false;
    }
    var order := db.orders[orderId];
    var items := order.items[index := order.items[index].(cancelled := true)];
    InventoryService.Release(db, read.items[index].variantId, read.items[index].quantity);
    var allCancelled := Orders.AllCancelledBut(read.items, index);
    db.orders := db.orders[orderId := order.(items := items,
                                             status := if allCancelled then CANCELLED else read.status)];
    ok := true;
  }

  lemma {:induction false} CommitLinesPrefix(inv: Inventory, lines: seq<Line>, n: nat)
    requires n <= |lines| && CommitLines(inv, lines[..n]).None?
    ensures CommitLines(inv, lines).None?
    decreases |lines|
  {
    if n == |lines| {
      assert lines[..n] == lines;
    } else {
      assert lines[..|lines| - 1][..n] == lines[..n];
      CommitLinesPrefix(inv, lines[..|lines| - 1], n);
    }
  }

  /** updateOrderStatus to SHIPPED, deciding on the order as read before the transaction. */
  method ShipOrder(db: Database, orderId: int, read: Order) returns (ok: bool)
    modifies db
    ensures Committed(db, ok, Orders.ShipOrder(old(db.Contents()), orderId, read))
  {
    var saved := db.Contents();
    if orderId !in db.orders {
      return false;
    }
    if PreShipment(read.status) {
      var lines := FilterActive(read.items);
      var i := 0;
      while i < |lines|
        invariant 0 <= i <= |lines|
        invariant CommitLines(saved.inv, lines[..i]) == Some(db.Inv())
        invariant db.orders == saved.orders && db.reservations == saved.reservations
      {
        assert lines[..i + 1][..i] == lines[..i];
        ok := InventoryService.CommitShipment(db, lines[i].variantId, lines[i].quantity);
        if !ok {
          CommitLinesPrefix(saved.inv, lines, i + 1);
          db.Rollback(saved);
          return;
        }
        i := i + 1;
      }
      assert lines[..i] == lines;
    }
    db.orders := db.orders[orderId := db.orders[orderId].(status := SHIPPED)];
    ok := true;
  }
}
