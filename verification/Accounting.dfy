/** Every reserved unit is accounted for: it belongs to an ACTIVE reservation or to an uncancelled item of an order
    that has not shipped, and every transaction keeps it that way. */
module Accounting {
  import opened Sums
  import opened Schema
  import opened InventoryMoves
  import opened Reservations
  import opened Orders
  import BatchExpiry

  function At(v: int): Key {
    Key(DEFAULT_WAREHOUSE, v)
  }

  function ReservationUnits(r: Reservation, v: int): int {
    if r.status.ACTIVE? then QtyAt(r.items, At(v)) else 0
  }

  function OrderUnits(o: Order, v: int): int {
    if PreShipment(o.status) then QtyAt(ActiveLines(o.items), At(v)) else 0
  }

  ghost function ReservationHold(v: int): (int, Reservation) -> int {
    (id: int, r: Reservation) => ReservationUnits(r, v)
  }

  ghost function OrderHold(v: int): (int, Order) -> int {
    (id: int, o: Order) => OrderUnits(o, v)
  }

  /** The units of a variant that reservations and orders hold. */
  ghost function Held(t: Tables, v: int): int {
    SumRows(t.reservations, ReservationHold(v)) + SumRows(t.orders, OrderHold(v))
  }

  predicate PositiveItems(items: seq<OrderItem>) {
    forall i :: 0 <= i < |items| ==> items[i].quantity > 0
  }

  ghost predicate GoodRows(t: Tables) {
    && (forall id :: id in t.reservations ==> Positive(t.reservations[id].items) && AtDefault(t.reservations[id].items))
    && (forall id :: id in t.orders ==> PositiveItems(t.orders[id].items))
  }

  /** I-1 and I-2 as the code keeps them. */
  ghost predicate Accounted(t: Tables) {
    && Sound(t.inv)
    && GoodRows(t)
    && forall v :: Reserved(t.inv, At(v)) == Held(t, v)
  }

  // ---------- Lines ----------

  lemma {:induction false} ActiveLinesGood(items: seq<OrderItem>)
    requires PositiveItems(items)
    ensures Positive(ActiveLines(items)) && AtDefault(ActiveLines(items))
    decreases |items|
  {
    if items != [] {
      ActiveLinesGood(items[..|items| - 1]);
    }
  }

  lemma {:induction false} QtyElsewhere(lines: seq<Line>, k: Key)
    requires AtDefault(lines) && k.warehouseId != DEFAULT_WAREHOUSE
    ensures QtyAt(lines, k) == 0
    decreases |lines|
  {
    if lines != [] {
      QtyElsewhere(lines[..|lines| - 1], k);
    }
  }

  /** Lines are covered once they are at DEFAULT and covered there. */
  lemma {:induction false} CoveredAtDefault(inv: Inventory, lines: seq<Line>)
    requires Sound(inv) && AtDefault(lines)
    requires forall v :: QtyAt(lines, At(v)) <= Reserved(inv, At(v))
    ensures Covered(inv, lines)
  {
    forall k ensures QtyAt(lines, k) <= Reserved(inv, k) {
      if k.warehouseId == DEFAULT_WAREHOUSE {
        assert k == At(k.variantId);
      } else {
        QtyElsewhere(lines, k);
      }
    }
  }

  /** Placing an order turns reservation lines into order items and back unchanged. */
  lemma {:induction false} OrderItemsRoundTrip(lines: seq<Line>)
    requires AtDefault(lines)
    ensures ActiveLines(OrderItems(lines)) == lines
    decreases |lines|
  {
    if lines != [] {
      var front := lines[..|lines| - 1];
      OrderItemsRoundTrip(front);
      assert OrderItems(lines)[..|lines| - 1] == OrderItems(front);
      assert front + [lines[|lines| - 1]] == lines;
    }
  }

  /** Units of one item at a key. */
  function ItemAt(item: OrderItem, k: Key): int {
    if !item.cancelled && k == At(item.variantId) then item.quantity else 0
  }

  function ItemsAt(items: seq<OrderItem>, k: Key): int {
    if items == [] then 0 else ItemsAt(items[..|items| - 1], k) + ItemAt(items[|items| - 1], k)
  }

  lemma {:induction false} ActiveLinesAt(items: seq<OrderItem>, k: Key)
    ensures QtyAt(ActiveLines(items), k) == ItemsAt(items, k)
    decreases |items|
  {
    if items != [] {
      ActiveLinesAt(items[..|items| - 1], k);
      QtyOneMore(ActiveLines(items[..|items| - 1]), items[|items| - 1], k);
    }
  }

  lemma {:induction false} CancelOneOfItems(items: seq<OrderItem>, i: nat, k: Key)
    requires i < |items| && !items[i].cancelled
    ensures ItemsAt(items[i := items[i].(cancelled := true)], k) == ItemsAt(items, k) - ItemAt(items[i], k)
    decreases |items|
  {
    var updated := items[i := items[i].(cancelled := true)];
    var front := items[..|items| - 1];
    if i < |items| - 1 {
      assert updated[..|items| - 1] == front[i := front[i].(cancelled := true)];
      CancelOneOfItems(front, i, k);
    } else {
      assert updated[..|items| - 1] == front;
    }
  }

  /** Cancelling one active item takes exactly its units out of the order's lines. */
  lemma {:induction false} CancelOneItem(items: seq<OrderItem>, i: nat, k: Key)
    requires i < |items| && !items[i].cancelled
    ensures QtyAt(ActiveLines(items[i := items[i].(cancelled := true)]), k)
         == QtyAt(ActiveLines(items), k) - ItemAt(items[i], k)
  {
    ActiveLinesAt(items, k);
    ActiveLinesAt(items[i := items[i].(cancelled := true)], k);
    CancelOneOfItems(items, i, k);
  }

  lemma {:induction false} QtyOneMore(lines: seq<Line>, item: OrderItem, k: Key)
    ensures QtyAt(lines + [Line(DEFAULT_WAREHOUSE, item.variantId, item.quantity)], k)
         == QtyAt(lines, k) + if k == At(item.variantId) then item.quantity else 0
    ensures QtyAt(lines + [], k) == QtyAt(lines, k)
  {
    assert (lines + [Line(DEFAULT_WAREHOUSE, item.variantId, item.quantity)])[..|lines|] == lines;
    assert lines + [] == lines;
  }

  // ---------- Holds ----------

  lemma HeldReservationUpdate(t: Tables, id: int, r: Reservation, v: int)
    ensures Held(t.(reservations := t.reservations[id := r]), v)
         == Held(t, v) + ReservationUnits(r, v)
            - (if id in t.reservations then ReservationUnits(t.reservations[id], v) else 0)
  {
    SumRowsUpdate(t.reservations, ReservationHold(v), id, r);
  }

  lemma HeldOrderUpdate(t: Tables, id: int, o: Order, v: int)
    ensures Held(t.(orders := t.orders[id := o]), v)
         == Held(t, v) + OrderUnits(o, v) - (if id in t.orders then OrderUnits(t.orders[id], v) else 0)
  {
    SumRowsUpdate(t.orders, OrderHold(v), id, o);
  }

  /** One holder never holds more than all of them together, nor less than nothing. */
  lemma HoldersWithinHeld(t: Tables, v: int)
    requires GoodRows(t)
    ensures forall id :: id in t.reservations ==> 0 <= ReservationUnits(t.reservations[id], v) <= Held(t, v)
    ensures forall id :: id in t.orders ==> 0 <= OrderUnits(t.orders[id], v) <= Held(t, v)
  {
    forall id | id in t.reservations ensures 0 <= ReservationHold(v)(id, t.reservations[id]) {
      QtyNonNegative(t.reservations[id].items, At(v));
    }
    forall id | id in t.orders ensures 0 <= OrderHold(v)(id, t.orders[id]) {
      ActiveLinesGood(t.orders[id].items);
      QtyNonNegative(ActiveLines(t.orders[id].items), At(v));
    }
    SumRowsNonNegative(t.reservations, ReservationHold(v));
    SumRowsNonNegative(t.orders, OrderHold(v));
    forall id | id in t.reservations
      ensures 0 <= ReservationUnits(t.reservations[id], v) <= Held(t, v)
    {
      SumRowsAtLeastOne(t.reservations, ReservationHold(v), id);
      assert 0 <= ReservationHold(v)(id, t.reservations[id]);
    }
    forall id | id in t.orders ensures 0 <= OrderUnits(t.orders[id], v) <= Held(t, v) {
      SumRowsAtLeastOne(t.orders, OrderHold(v), id);
      assert 0 <= OrderHold(v)(id, t.orders[id]);
    }
  }

  /** One holder never holds more than is reserved. */
  lemma HoldersAreCovered(t: Tables, v: int)
    requires Accounted(t)
    ensures forall id :: id in t.reservations ==> ReservationUnits(t.reservations[id], v) <= Reserved(t.inv, At(v))
    ensures forall id :: id in t.orders ==> OrderUnits(t.orders[id], v) <= Reserved(t.inv, At(v))
  {
    HoldersWithinHeld(t, v);
    assert Reserved(t.inv, At(v)) == Held(t, v);
  }

  lemma ReservationIsCovered(t: Tables, id: int)
    requires Accounted(t) && id in t.reservations && t.reservations[id].status.ACTIVE?
    ensures Covered(t.inv, t.reservations[id].items)
  {
    forall v ensures QtyAt(t.reservations[id].items, At(v)) <= Reserved(t.inv, At(v)) {
      HoldersAreCovered(t, v);
      assert ReservationUnits(t.reservations[id], v) <= Reserved(t.inv, At(v));
    }
    CoveredAtDefault(t.inv, t.reservations[id].items);
  }

  lemma OrderIsCovered(t: Tables, id: int)
    requires Accounted(t) && id in t.orders && PreShipment(t.orders[id].status)
    ensures Positive(ActiveLines(t.orders[id].items)) && AtDefault(ActiveLines(t.orders[id].items))
    ensures Covered(t.inv, ActiveLines(t.orders[id].items))
  {
    ActiveLinesGood(t.orders[id].items);
    forall v ensures QtyAt(ActiveLines(t.orders[id].items), At(v)) <= Reserved(t.inv, At(v)) {
      HoldersAreCovered(t, v);
      assert OrderUnits(t.orders[id], v) <= Reserved(t.inv, At(v));
    }
    CoveredAtDefault(t.inv, ActiveLines(t.orders[id].items));
  }

  // ---------- Every transaction keeps the accounts ----------

  lemma CreateReservationKeeps(t: Tables, id: int, userId: int, cart: seq<CartItem>, expiresAt: int, isFlash: bool)
    requires Accounted(t) && id !in t.reservations
    requires forall i :: 0 <= i < |cart| ==> cart[i].quantity > 0
    requires CreateReservation(t, id, userId, cart, expiresAt, isFlash).Some?
    ensures Accounted(CreateReservation(t, id, userId, cart, expiresAt, isFlash).value)
    ensures SameSupply(t.inv, CreateReservation(t, id, userId, cart, expiresAt, isFlash).value.inv)
  {
    var lines := CartLines(cart);
    var out := CreateReservation(t, id, userId, cart, expiresAt, isFlash).value;
    ReserveLinesCorrect(t.inv, lines);
    forall v ensures Reserved(out.inv, At(v)) == Held(out, v) {
      HeldReservationUpdate(t, id, out.reservations[id], v);
      assert Reserved(t.inv, At(v)) == Held(t, v);
    }
  }

  lemma PlaceOrderKeeps(t: Tables, orderId: int, userId: int, id: int, couponOk: bool)
    requires Accounted(t) && orderId !in t.orders && id in t.reservations
    requires PlaceOrder(t, orderId, userId, id, t.reservations[id].items, couponOk).Some?
    ensures Accounted(PlaceOrder(t, orderId, userId, id, t.reservations[id].items, couponOk).value)
  {
    var items := t.reservations[id].items;
    var out := PlaceOrder(t, orderId, userId, id, items, couponOk).value;
    OrderItemsRoundTrip(items);
    forall v ensures Reserved(out.inv, At(v)) == Held(out, v) {
      HeldReservationUpdate(t, id, out.reservations[id], v);
      HeldOrderUpdate(t.(reservations := out.reservations), orderId, out.orders[orderId], v);
      assert Reserved(t.inv, At(v)) == Held(t, v);
    }
  }

  lemma {:induction false} ReleaseOfHeldReservation(t: Tables, id: int)
    requires Accounted(t) && id in t.reservations && t.reservations[id].status.ACTIVE?
    ensures var lines := t.reservations[id].items;
            var inv := ReleaseHolds(t.inv, lines);
            && Sound(inv) && SameSupply(t.inv, inv) && ClampFree(t.inv, lines) && Shifted(t.inv, inv, lines, Keep, Lose)
  {
    ReservationIsCovered(t, id);
    ReleaseHoldsCorrect(t.inv, t.reservations[id].items);
  }

  lemma CommitReleaseKeeps(t: Tables, id: int)
    requires Accounted(t) && id in t.reservations
    ensures Accounted(CommitRelease(t, id, t.reservations[id].items))
    ensures SameSupply(t.inv, CommitRelease(t, id, t.reservations[id].items).inv)
    ensures t.reservations[id].status.ACTIVE? ==> ClampFree(t.inv, t.reservations[id].items)
  {
    var out := CommitRelease(t, id, t.reservations[id].items);
    if t.reservations[id].status.ACTIVE? {
      ReleaseOfHeldReservation(t, id);
      forall v ensures Reserved(out.inv, At(v)) == Held(out, v) {
        HeldReservationUpdate(t, id, out.reservations[id], v);
        assert Reserved(t.inv, At(v)) == Held(t, v);
      }
    }
  }

  lemma {:induction false} SerialExpireKeeps(t: Tables, ids: seq<int>)
    requires Accounted(t)
    ensures Accounted(SerialExpire(t, ids))
    ensures SameSupply(t.inv, SerialExpire(t, ids).inv)
    decreases |ids|
  {
    if ids != [] {
      SerialExpireKeeps(t, ids[..|ids| - 1]);
      var id, mid := ids[|ids| - 1], SerialExpire(t, ids[..|ids| - 1]);
      if id in mid.reservations {
        CommitReleaseKeeps(mid, id);
        forall v ensures Supply(SerialExpire(t, ids).inv, v) == Supply(t.inv, v) {
          assert Supply(mid.inv, v) == Supply(t.inv, v);
        }
      }
    }
  }

  /** The batched statement keeps the accounts because it equals the serial loop, and like it meets no clamp. */
  lemma BatchExpireKeeps(t: Tables, ids: seq<int>)
    requires Accounted(t) && BatchExpiry.Distinct(ids)
    ensures Accounted(BatchExpire(t, ids))
    ensures SameSupply(t.inv, BatchExpire(t, ids).inv)
  {
    BatchExpiry.BatchIsSerial(t, ids, ids);
    SerialExpireKeeps(t, ids);
  }

  /** The expired items are held together, and the serial loop takes exactly them out. */
  lemma {:induction false} ExpiredAreCovered(t: Tables, ids: seq<int>)
    requires Accounted(t) && BatchExpiry.Distinct(ids)
    ensures Shifted(t.inv, SerialExpire(t, ids).inv, ExpiredItems(t.reservations, ids), Keep, Lose)
    ensures Positive(ExpiredItems(t.reservations, ids)) && AtDefault(ExpiredItems(t.reservations, ids))
    ensures Covered(t.inv, ExpiredItems(t.reservations, ids))
    decreases |ids|
  {
    if ids == [] {
      forall k ensures QtyAt([], k) <= Reserved(t.inv, k) {}
    } else {
      var front, id := ids[..|ids| - 1], ids[|ids| - 1];
      ExpiredAreCovered(t, front);
      assert id !in front;
      BatchExpiry.SerialExpireClosed(t, front);
      SerialExpireKeeps(t, front);
      if id in t.reservations && t.reservations[id].status.ACTIVE? {
        OneMoreExpired(t, SerialExpire(t, front), ExpiredItems(t.reservations, front), id);
        assert ExpiredItems(t.reservations, ids) == ExpiredItems(t.reservations, front) + t.reservations[id].items;
      } else {
        assert ExpiredItems(t.reservations, ids) == ExpiredItems(t.reservations, front);
      }
    }
  }

  lemma {:induction false} OneMoreExpired(t: Tables, mid: Tables, lines: seq<Line>, id: int)
    requires Sound(t.inv) && Accounted(mid) && Shifted(t.inv, mid.inv, lines, Keep, Lose)
    requires id in mid.reservations && mid.reservations[id].status.ACTIVE?
    ensures var out := ReleaseHolds(mid.inv, mid.reservations[id].items);
            && Shifted(t.inv, out, lines + mid.reservations[id].items, Keep, Lose)
            && Covered(t.inv, lines + mid.reservations[id].items)
  {
    var items := mid.reservations[id].items;
    var out := ReleaseHolds(mid.inv, items);
    ReleaseOfHeldReservation(mid, id);
    forall k
      ensures Stock(out, k) == Stock(t.inv, k)
      ensures Reserved(out, k) == Reserved(t.inv, k) - QtyAt(lines + items, k)
      ensures QtyAt(lines + items, k) <= Reserved(t.inv, k)
    {
      QtyOfBoth(lines, items, k);
      assert Reserved(mid.inv, k) == Reserved(t.inv, k) - QtyAt(lines, k) && Stock(mid.inv, k) == Stock(t.inv, k);
      assert Reserved(out, k) == Reserved(mid.inv, k) - QtyAt(items, k) && Stock(out, k) == Stock(mid.inv, k);
      assert 0 <= Reserved(out, k);
    }
  }

  lemma {:induction false} QtyOfBoth(a: seq<Line>, b: seq<Line>, k: Key)
    ensures QtyAt(a + b, k) == QtyAt(a, k) + QtyAt(b, k)
    decreases |b|
  {
    if b == [] {
      assert a + b == a;
    } else {
      assert (a + b)[..|a + b| - 1] == a + b[..|b| - 1];
      QtyOfBoth(a, b[..|b| - 1], k);
    }
  }

  /** Neither GREATEST(0, ...) of the batched statement has a negative argument. */
  ghost predicate BatchClampFree(t: Tables, ids: seq<int>) {
    var itemsAgg := GroupBy(ItemRows(ExpiredItems(t.reservations, ids)));
    var variantAgg := GroupBy(VariantRows(itemsAgg));
    && (forall k :: k in t.inv.rows && Find(itemsAgg, k) < |itemsAgg| ==>
          0 <= t.inv.rows[k].reserved - itemsAgg[Find(itemsAgg, k)].qty)
    && (forall v :: v in t.inv.variants && Find(variantAgg, v) < |variantAgg| ==>
          0 <= t.inv.variants[v].reservedStock - variantAgg[Find(variantAgg, v)].qty)
  }

  lemma {:induction false} TotalIsQty(lines: seq<Line>, k: Key)
    ensures BatchExpiry.Total(ItemRows(lines), BatchExpiry.Is(k)) == QtyAt(lines, k)
    decreases |lines|
  {
    if lines != [] {
      assert ItemRows(lines)[..|lines| - 1] == ItemRows(lines[..|lines| - 1]);
      TotalIsQty(lines[..|lines| - 1], k);
    }
  }

  lemma {:induction false} VariantTotalIsQty(lines: seq<Line>, v: int)
    requires AtDefault(lines)
    ensures BatchExpiry.Total(ItemRows(lines), BatchExpiry.OfVariant(v)) == QtyAt(lines, At(v))
    decreases |lines|
  {
    if lines != [] {
      assert ItemRows(lines)[..|lines| - 1] == ItemRows(lines[..|lines| - 1]);
      VariantTotalIsQty(lines[..|lines| - 1], v);
    }
  }

  lemma {:induction false} BatchMeetsNoClamp(t: Tables, ids: seq<int>)
    requires Accounted(t) && BatchExpiry.Distinct(ids)
    ensures BatchClampFree(t, ids)
  {
    var lines := ExpiredItems(t.reservations, ids);
    var itemsAgg := GroupBy(ItemRows(lines));
    var variantAgg := GroupBy(VariantRows(itemsAgg));
    ExpiredAreCovered(t, ids);
    forall k | k in t.inv.rows && Find(itemsAgg, k) < |itemsAgg|
      ensures 0 <= t.inv.rows[k].reserved - itemsAgg[Find(itemsAgg, k)].qty
    {
      BatchExpiry.GroupFinds(ItemRows(lines), k);
      TotalIsQty(lines, k);
      assert QtyAt(lines, k) <= Reserved(t.inv, k);
    }
    forall v | v in t.inv.variants && Find(variantAgg, v) < |variantAgg|
      ensures 0 <= t.inv.variants[v].reservedStock - variantAgg[Find(variantAgg, v)].qty
    {
      BatchExpiry.VariantGroupFinds(ItemRows(lines), v);
      VariantTotalIsQty(lines, v);
      CacheWithinBounds(t.inv, v);
      assert QtyAt(lines, At(v)) <= Reserved(t.inv, At(v));
    }
  }

  function GuestLines(items: seq<GuestItem>): seq<Line> {
    seq(|items|, i requires 0 <= i < |items| => Line(DEFAULT_WAREHOUSE, items[i].variantId, items[i].quantity))
  }

  /** Units of a variant that the items reserve by growing the stock. */
  function Backordered(items: seq<GuestItem>, v: int): int {
    if items == [] then 0
    else
      var last := items[|items| - 1];
      Backordered(items[..|items| - 1], v)
      + if last.allowBackorder && last.variantId == v then last.quantity else 0
  }

  lemma ReserveIsSound(inv: Inventory, item: GuestItem)
    requires Sound(inv) && Reserve(inv, item.variantId, item.quantity, item.allowBackorder).Some?
    ensures item.quantity > 0 && Sound(Reserve(inv, item.variantId, item.quantity, item.allowBackorder).value)
  {
    var k, line := At(item.variantId), Line(DEFAULT_WAREHOUSE, item.variantId, item.quantity);
    if item.allowBackorder {
      BackorderIsMove(inv, item.variantId, item.quantity);
      MoveKeepsSound(inv, k, item.quantity, item.quantity, 0);
    } else {
      ReserveLineIsMove(inv, line);
      MoveLineKeepsSound(inv, line, Keep, Gain);
    }
  }

  lemma ReserveAdds(inv: Inventory, item: GuestItem, v: int)
    requires Sound(inv) && Reserve(inv, item.variantId, item.quantity, item.allowBackorder).Some?
    ensures var out := Reserve(inv, item.variantId, item.quantity, item.allowBackorder).value;
            && Reserved(out, At(v)) == Reserved(inv, At(v)) + (if v == item.variantId then item.quantity else 0)
            && Supply(out, v)
               == Supply(inv, v) + (if item.allowBackorder && v == item.variantId then item.quantity else 0)
  {
    var line := Line(DEFAULT_WAREHOUSE, item.variantId, item.quantity);
    if item.allowBackorder {
      BackorderIsMove(inv, item.variantId, item.quantity);
    } else {
      ReserveLineIsMove(inv, line);
    }
  }

  lemma PositiveOneMore(lines: seq<Line>)
    requires lines != [] && Positive(lines[..|lines| - 1]) && lines[|lines| - 1].quantity > 0
    ensures Positive(lines)
  {
    var front := lines[..|lines| - 1];
    assert forall i :: 0 <= i < |front| ==> front[i] == lines[i];
  }

  lemma {:induction false} GuestLinesOneMore(items: seq<GuestItem>, v: int)
    requires items != []
    ensures var front, last := items[..|items| - 1], items[|items| - 1];
            && GuestLines(items)[..|items| - 1] == GuestLines(front)
            && QtyAt(GuestLines(items), At(v))
               == QtyAt(GuestLines(front), At(v)) + (if v == last.variantId then last.quantity else 0)
  {
    var front := items[..|items| - 1];
    assert GuestLines(items)[..|items| - 1] == GuestLines(front);
  }

  lemma {:induction false} GuestLinesPositive(inv: Inventory, items: seq<GuestItem>)
    requires ReserveItems(inv, items).Some?
    ensures Positive(GuestLines(items))
    decreases |items|
  {
    if items != [] {
      GuestLinesPositive(inv, items[..|items| - 1]);
      GuestLinesOneMore(items, 0);
      PositiveOneMore(GuestLines(items));
    }
  }

  lemma {:induction false} ReserveItemsSound(inv: Inventory, items: seq<GuestItem>)
    requires Sound(inv) && ReserveItems(inv, items).Some?
    ensures Sound(ReserveItems(inv, items).value)
    decreases |items|
  {
    if items != [] {
      var front := items[..|items| - 1];
      ReserveItemsSound(inv, front);
      ReserveIsSound(ReserveItems(inv, front).value, items[|items| - 1]);
    }
  }

  lemma {:induction false} ReserveItemsAt(inv: Inventory, items: seq<GuestItem>, v: int)
    requires Sound(inv) && ReserveItems(inv, items).Some?
    ensures Reserved(ReserveItems(inv, items).value, At(v)) == Reserved(inv, At(v)) + QtyAt(GuestLines(items), At(v))
    ensures Supply(ReserveItems(inv, items).value, v) == Supply(inv, v) + Backordered(items, v)
    decreases |items|
  {
    if items != [] {
      var front := items[..|items| - 1];
      ReserveItemsAt(inv, front, v);
      ReserveItemsSound(inv, front);
      ReserveAdds(ReserveItems(inv, front).value, items[|items| - 1], v);
      GuestLinesOneMore(items, v);
    }
  }

  lemma {:induction false} ReserveItemsCorrect(inv: Inventory, items: seq<GuestItem>)
    requires Sound(inv) && ReserveItems(inv, items).Some?
    ensures Sound(ReserveItems(inv, items).value)
    ensures Positive(GuestLines(items))
    ensures forall v :: Reserved(ReserveItems(inv, items).value, At(v))
                     == Reserved(inv, At(v)) + QtyAt(GuestLines(items), At(v))
    ensures forall v :: Supply(ReserveItems(inv, items).value, v) == Supply(inv, v) + Backordered(items, v)
  {
    ReserveItemsSound(inv, items);
    GuestLinesPositive(inv, items);
    forall v
      ensures Reserved(ReserveItems(inv, items).value, At(v))
           == Reserved(inv, At(v)) + QtyAt(GuestLines(items), At(v))
      ensures Supply(ReserveItems(inv, items).value, v) == Supply(inv, v) + Backordered(items, v)
    {
      ReserveItemsAt(inv, items, v);
    }
  }

  lemma PlaceGuestOrderKeeps(t: Tables, orderId: int, items: seq<GuestItem>, couponOk: bool)
    requires Accounted(t) && orderId !in t.orders
    requires PlaceGuestOrder(t, orderId, items, couponOk).Some?
    ensures Accounted(PlaceGuestOrder(t, orderId, items, couponOk).value)
  {
    var out := PlaceGuestOrder(t, orderId, items, couponOk).value;
    ReserveItemsCorrect(t.inv, items);
    assert GuestOrderItems(items) == OrderItems(GuestLines(items));
    OrderItemsRoundTrip(GuestLines(items));
    forall i | 0 <= i < |items| ensures out.orders[orderId].items[i].quantity > 0 {
      assert GuestLines(items)[i].quantity > 0;
    }
    forall v ensures Reserved(out.inv, At(v)) == Held(out, v) {
      HeldOrderUpdate(t, orderId, out.orders[orderId], v);
      assert Reserved(t.inv, At(v)) == Held(t, v);
    }
  }

  lemma {:induction false} ReleaseOfHeldOrder(t: Tables, orderId: int)
    requires Accounted(t) && orderId in t.orders && PreShipment(t.orders[orderId].status)
    ensures var lines := ActiveLines(t.orders[orderId].items);
            var inv := ReleaseLines(t.inv, lines);
            && Sound(inv) && SameSupply(t.inv, inv) && ClampFree(t.inv, lines)
            && Shifted(t.inv, inv, lines, Keep, Lose)
  {
    OrderIsCovered(t, orderId);
    ReleaseLinesIsReleaseHolds(t.inv, ActiveLines(t.orders[orderId].items));
    ReleaseHoldsCorrect(t.inv, ActiveLines(t.orders[orderId].items));
  }

  lemma {:induction false} CancelOrderKeeps(t: Tables, userId: int, orderId: int)
    requires Accounted(t) && CancelOrder(t, userId, orderId).Some?
    ensures Accounted(CancelOrder(t, userId, orderId).value)
    ensures SameSupply(t.inv, CancelOrder(t, userId, orderId).value.inv)
    ensures ClampFree(t.inv, ActiveLines(t.orders[orderId].items))
  {
    var out := CancelOrder(t, userId, orderId).value;
    ReleaseOfHeldOrder(t, orderId);
    forall v ensures Reserved(out.inv, At(v)) == Held(out, v) {
      HeldOrderUpdate(t, orderId, out.orders[orderId], v);
      assert Reserved(t.inv, At(v)) == Held(t, v);
    }
  }

  lemma ShipOrderKeeps(t: Tables, orderId: int)
    requires Accounted(t) && orderId in t.orders && PreShipment(t.orders[orderId].status)
    ensures ShipOrder(t, orderId, t.orders[orderId]).Some?
    ensures Accounted(ShipOrder(t, orderId, t.orders[orderId]).value)
    ensures SameSupply(t.inv, ShipOrder(t, orderId, t.orders[orderId]).value.inv)
  {
    var lines := ActiveLines(t.orders[orderId].items);
    OrderIsCovered(t, orderId);
    CommitLinesCorrect(t.inv, lines);
    var out := ShipOrder(t, orderId, t.orders[orderId]).value;
    forall v ensures Reserved(out.inv, At(v)) == Held(out, v) {
      HeldOrderUpdate(t, orderId, out.orders[orderId], v);
      assert Reserved(t.inv, At(v)) == Held(t, v);
    }
  }

  lemma RestockKeeps(t: Tables, v: int, qty: int)
    requires Accounted(t) && RestockVariant(t, v, qty).Some?
    ensures Accounted(RestockVariant(t, v, qty).value)
    ensures forall w :: Supply(RestockVariant(t, v, qty).value.inv, w)
                     == Supply(t.inv, w) + if w == v && qty > 0 then qty else 0
  {
    RestockIsMove(t.inv, v, qty);
    if qty > 0 {
      MoveKeepsSound(t.inv, At(v), qty, 0, 0);
    }
    var out := RestockVariant(t, v, qty).value;
    forall w ensures Reserved(out.inv, At(w)) == Held(out, w) {
      assert Reserved(t.inv, At(w)) == Held(t, w);
    }
  }

  /** One held item is cancelled and given back; the order stays among the holding statuses or has nothing left. */
  function ItemGone(t: Tables, orderId: int, index: nat, status: OrderStatus): Tables
    requires orderId in t.orders && index < |t.orders[orderId].items|
  {
    var o := t.orders[orderId];
    var item := o.items[index];
    t.(inv := Release(t.inv, item.variantId, item.quantity),
       orders := t.orders[orderId := o.(items := o.items[index := item.(cancelled := true)], status := status)])
  }

  ghost predicate HeldItem(t: Tables, orderId: int, index: nat) {
    && orderId in t.orders && PreShipment(t.orders[orderId].status)
    && index < |t.orders[orderId].items| && !t.orders[orderId].items[index].cancelled
  }

  lemma {:induction false} ReleaseOfHeldItem(t: Tables, orderId: int, index: nat)
    requires Accounted(t) && HeldItem(t, orderId, index)
    ensures var item := t.orders[orderId].items[index];
            var line := Line(DEFAULT_WAREHOUSE, item.variantId, item.quantity);
            var inv := Release(t.inv, item.variantId, item.quantity);
            && Sound(inv) && SameSupply(t.inv, inv) && ClampFree(t.inv, [line])
            && forall v :: Reserved(inv, At(v)) == Reserved(t.inv, At(v)) - ItemAt(item, At(v))
  {
    var item := t.orders[orderId].items[index];
    var line := Line(DEFAULT_WAREHOUSE, item.variantId, item.quantity);
    ItemIsCovered(t, orderId, index);
    SingleLine(line);
    ReleaseHoldsCorrect(t.inv, [line]);
    assert ReleaseHolds(t.inv, []) == t.inv;
    assert Release(t.inv, item.variantId, item.quantity) == ReleaseHolds(t.inv, [line]);
    forall v
      ensures Reserved(ReleaseHolds(t.inv, [line]), At(v)) == Reserved(t.inv, At(v)) - ItemAt(item, At(v))
    {
      assert QtyAt([line], At(v)) == ItemAt(item, At(v));
    }
  }

  lemma {:induction false} UnitsWithoutItem(o: Order, index: nat, status: OrderStatus, v: int)
    requires PreShipment(o.status) && index < |o.items| && !o.items[index].cancelled
    requires PreShipment(status) || AllCancelledBut(o.items, index)
    ensures OrderUnits(o.(items := o.items[index := o.items[index].(cancelled := true)], status := status), v)
         == OrderUnits(o, v) - ItemAt(o.items[index], At(v))
  {
    CancelOneItem(o.items, index, At(v));
    if !PreShipment(status) {
      NoActiveLines(o.items[index := o.items[index].(cancelled := true)]);
    }
  }

  lemma {:induction false} ItemGoneKeeps(t: Tables, orderId: int, index: nat, status: OrderStatus)
    requires Accounted(t) && HeldItem(t, orderId, index)
    requires PreShipment(status) || AllCancelledBut(t.orders[orderId].items, index)
    ensures Accounted(ItemGone(t, orderId, index, status))
    ensures SameSupply(t.inv, ItemGone(t, orderId, index, status).inv)
  {
    var out := ItemGone(t, orderId, index, status);
    ReleaseOfHeldItem(t, orderId, index);
    forall v ensures Reserved(out.inv, At(v)) == Held(out, v) {
      HeldOrderUpdate(t, orderId, out.orders[orderId], v);
      UnitsWithoutItem(t.orders[orderId], index, status, v);
      assert Reserved(t.inv, At(v)) == Held(t, v);
    }
  }

  /** cancelOrderItem on an order that did not change since it was read. */
  lemma {:induction false} CancelItemKeeps(t: Tables, userId: int, orderId: int, index: int)
    requires Accounted(t) && orderId in t.orders
    requires CancelOrderItem(t, userId, orderId, index, t.orders[orderId]).Some?
    ensures Accounted(CancelOrderItem(t, userId, orderId, index, t.orders[orderId]).value)
    ensures SameSupply(t.inv, CancelOrderItem(t, userId, orderId, index, t.orders[orderId]).value.inv)
    ensures var item := t.orders[orderId].items[index];
            ClampFree(t.inv, [Line(DEFAULT_WAREHOUSE, item.variantId, item.quantity)])
  {
    var o := t.orders[orderId];
    ReleaseOfHeldItem(t, orderId, index);
    ItemGoneKeeps(t, orderId, index, if AllCancelledBut(o.items, index) then CANCELLED else o.status);
  }

  lemma SingleLine(line: Line)
    ensures forall k :: QtyAt([line], k) == if k == line.AtKey() then line.quantity else 0
  {
    assert [line][..0] == [];
  }

  lemma {:induction false} NoActiveLines(items: seq<OrderItem>)
    requires forall i :: 0 <= i < |items| ==> items[i].cancelled
    ensures ActiveLines(items) == []
    decreases |items|
  {
    if items != [] {
      NoActiveLines(items[..|items| - 1]);
    }
  }

  /** An uncancelled item of a pre-shipment order is held. */
  lemma ItemIsCovered(t: Tables, orderId: int, index: nat)
    requires Accounted(t) && orderId in t.orders && PreShipment(t.orders[orderId].status)
    requires index < |t.orders[orderId].items| && !t.orders[orderId].items[index].cancelled
    ensures var item := t.orders[orderId].items[index];
            && 0 < item.quantity <= Reserved(t.inv, At(item.variantId))
            && Covered(t.inv, [Line(DEFAULT_WAREHOUSE, item.variantId, item.quantity)])
  {
    var items := t.orders[orderId].items;
    var item := items[index];
    var after := items[index := item.(cancelled := true)];
    OrderIsCovered(t, orderId);
    CancelOneItem(items, index, At(item.variantId));
    ActiveLinesGood(after);
    QtyNonNegative(ActiveLines(after), At(item.variantId));
    assert QtyAt(ActiveLines(items), At(item.variantId)) <= Reserved(t.inv, At(item.variantId));
    SingleLine(Line(DEFAULT_WAREHOUSE, item.variantId, item.quantity));
  }

  /** A status change without inventory movement keeps the accounts within a class of statuses. */
  lemma SetStatusKeeps(t: Tables, orderId: int, status: OrderStatus)
    requires Accounted(t) && orderId in t.orders && PreShipment(t.orders[orderId].status) == PreShipment(status)
    ensures Accounted(SetStatus(t, orderId, status).value)
  {
    var out := SetStatus(t, orderId, status).value;
    forall v ensures Reserved(out.inv, At(v)) == Held(out, v) {
      HeldOrderUpdate(t, orderId, out.orders[orderId], v);
      assert Reserved(t.inv, At(v)) == Held(t, v);
    }
  }
}
