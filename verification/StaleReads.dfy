/** What the order transactions do when the order changed between the read and the transaction.

cancelOrderItem and updateOrderStatus decide on an order that they read before their transaction, and write without
checking again. The lemmas give the exact condition, on the row as it is when the transaction runs, under which the
accounts survive, and a run that breaks them.
*/
module StaleReads {
  import opened Sums
  import opened Schema
  import opened InventoryMoves
  import opened Orders
  import opened Accounting

  /** `now` is the same order later: items are never removed or rewritten, and a cancellation is never undone. */
  predicate LaterThan(read: Order, now: Order) {
    && |read.items| == |now.items|
    && forall i :: 0 <= i < |read.items| ==>
         && read.items[i].variantId == now.items[i].variantId
         && read.items[i].quantity == now.items[i].quantity
         && (read.items[i].cancelled ==> now.items[i].cancelled)
  }

  predicate SomeOtherActive(items: seq<OrderItem>, index: int) {
    exists i :: 0 <= i < |items| && i != index && !items[i].cancelled
  }

  /** The item is still active in an order that still holds its units. */
  predicate StillHeld(o: Order, index: int)
    requires 0 <= index < |o.items|
  {
    PreShipment(o.status) && !o.items[index].cancelled
  }

  /** The write puts an order that no longer holds units back into a holding status. */
  predicate Revives(o: Order, read: Order, index: int) {
    !PreShipment(o.status) && !AllCancelledBut(read.items, index) && SomeOtherActive(o.items, index)
  }

  predicate NoneReserved(inv: Inventory, v: int) {
    At(v) !in inv.rows || (v in inv.variants && inv.variants[v].reservedStock == 0)
  }

  predicate NothingActive(items: seq<OrderItem>) {
    forall i :: 0 <= i < |items| ==> items[i].cancelled
  }

  /** Releasing units that are not held either does nothing or breaks the cache or loses reserved units. */
  lemma ReleaseShows(inv: Inventory, v: int, qty: int)
    requires Sound(inv) && qty > 0
    ensures forall w :: w != v ==> Reserved(Release(inv, v, qty), At(w)) == Reserved(inv, At(w))
    ensures Reserved(Release(inv, v, qty), At(v)) <= Reserved(inv, At(v))
    ensures Release(inv, v, qty) == inv
       || Reserved(Release(inv, v, qty), At(v)) < Reserved(inv, At(v))
       || !Sound(Release(inv, v, qty))
    ensures Release(inv, v, qty) == inv <==> NoneReserved(inv, v)
  {
    var out := Release(inv, v, qty);
    if At(v) in inv.rows {
      CacheWithinBounds(inv, v);
      if Reserved(inv, At(v)) == 0 {
        assert out.rows == inv.rows;
        if inv.variants[v].reservedStock == 0 {
          assert out.variants == inv.variants;
        } else {
          assert Cached(inv, v);
          assert out.variants[v].reservedStock != inv.variants[v].reservedStock;
          assert !Cached(out, v);
        }
      }
    }
  }

  lemma {:induction false} ActiveUnits(items: seq<OrderItem>, i: nat)
    requires PositiveItems(items) && i < |items| && !items[i].cancelled
    ensures 0 < QtyAt(ActiveLines(items), At(items[i].variantId))
  {
    ActiveLinesAt(items, At(items[i].variantId));
    ActiveItemCounts(items, i);
  }

  lemma {:induction false} ItemsAtLeastZero(items: seq<OrderItem>, k: Key)
    requires PositiveItems(items)
    ensures 0 <= ItemsAt(items, k)
    decreases |items|
  {
    if items != [] {
      ItemsAtLeastZero(items[..|items| - 1], k);
    }
  }

  lemma {:induction false} ActiveItemCounts(items: seq<OrderItem>, i: nat)
    requires PositiveItems(items) && i < |items| && !items[i].cancelled
    ensures 0 < ItemsAt(items, At(items[i].variantId))
    decreases |items|
  {
    if i < |items| - 1 {
      ActiveItemCounts(items[..|items| - 1], i);
    } else {
      ItemsAtLeastZero(items[..|items| - 1], At(items[i].variantId));
    }
  }

  lemma UnitsAtLeastZero(o: Order, v: int)
    requires PositiveItems(o.items)
    ensures 0 <= OrderUnits(o, v)
  {
    ActiveLinesGood(o.items);
    QtyNonNegative(ActiveLines(o.items), At(v));
  }

  lemma AlreadyCancelled(items: seq<OrderItem>, i: nat)
    requires i < |items| && items[i].cancelled
    ensures items[i := items[i].(cancelled := true)] == items
  {
  }

  /** cancelOrderItem after an arbitrary change of the order keeps the accounts exactly when the item is still held,
      or when its write is harmless: nothing of the variant is reserved anywhere and no order comes back to life. */
  lemma CancelItemAfterChange(t: Tables, userId: int, orderId: int, index: int, read: Order)
    requires Accounted(t) && orderId in t.orders && LaterThan(read, t.orders[orderId])
    requires CancelOrderItem(t, userId, orderId, index, read).Some?
    ensures Accounted(CancelOrderItem(t, userId, orderId, index, read).value)
       <==> || StillHeld(t.orders[orderId], index)
            || (NoneReserved(t.inv, read.items[index].variantId) && !Revives(t.orders[orderId], read, index))
  {
    var o := t.orders[orderId];
    var out := CancelOrderItem(t, userId, orderId, index, read).value;
    var o' := out.orders[orderId];
    var v, qty := read.items[index].variantId, read.items[index].quantity;
    assert qty == o.items[index].quantity > 0;
    if StillHeld(o, index) {
      StillHeldKeeps(t, userId, orderId, index, read);
      ItemIsCovered(t, orderId, index);
    } else {
      ReleaseShows(t.inv, v, qty);
      UnheldUnits(o, read, index, o');
      assert Reserved(t.inv, At(v)) == Held(t, v);
      HeldOrderUpdate(t, orderId, o', v);
      if out.inv == t.inv {
        if Revives(o, read, index) {
          var i :| 0 <= i < |o.items| && i != index && !o.items[i].cancelled;
          var w := o.items[i].variantId;
          assert o'.items[i] == o.items[i];
          ActiveUnits(o'.items, i);
          assert Reserved(t.inv, At(w)) == Held(t, w);
          HeldOrderUpdate(t, orderId, o', w);
          assert Reserved(out.inv, At(w)) != Held(out, w);
        } else {
          forall w ensures Reserved(out.inv, At(w)) == Held(out, w) {
            assert Reserved(t.inv, At(w)) == Held(t, w);
            HeldOrderUpdate(t, orderId, o', w);
          }
        }
      } else {
        assert Reserved(out.inv, At(v)) != Held(out, v) || !Sound(out.inv);
      }
    }
  }

  /** An order whose item is not held loses no units by the write, and gains some exactly if it revives. */
  lemma UnheldUnits(o: Order, read: Order, index: int, o': Order)
    requires LaterThan(read, o) && 0 <= index < |o.items| && PositiveItems(o.items) && PreShipment(read.status)
    requires !read.items[index].cancelled && !StillHeld(o, index)
    requires o' == o.(items := o.items[index := o.items[index].(cancelled := true)],
                      status := if AllCancelledBut(read.items, index) then CANCELLED else read.status)
    ensures PositiveItems(o'.items)
    ensures forall v :: OrderUnits(o, v) <= OrderUnits(o', v)
    ensures !Revives(o, read, index) ==> forall v :: OrderUnits(o, v) == OrderUnits(o', v)
    ensures Revives(o, read, index) ==> PreShipment(o'.status) && forall v :: OrderUnits(o, v) == 0
  {
    forall v ensures 0 <= OrderUnits(o', v) {
      UnitsAtLeastZero(o', v);
    }
    if PreShipment(o.status) {
      AlreadyCancelled(o.items, index);
      if AllCancelledBut(read.items, index) {
        NoActiveLines(o.items);
      }
    } else if !Revives(o, read, index) && !AllCancelledBut(read.items, index) {
      NoActiveLines(o'.items);
    }
  }

  /** While the item is held, the stale status and the stale flags of the other items do no harm. */
  lemma StillHeldKeeps(t: Tables, userId: int, orderId: int, index: int, read: Order)
    requires Accounted(t) && orderId in t.orders && LaterThan(read, t.orders[orderId])
    requires CancelOrderItem(t, userId, orderId, index, read).Some? && StillHeld(t.orders[orderId], index)
    ensures Accounted(CancelOrderItem(t, userId, orderId, index, read).value)
  {
    ItemGoneKeeps(t, orderId, index, if AllCancelledBut(read.items, index) then CANCELLED else read.status);
  }

  lemma {:induction false} ShippedInventory(inv: Inventory, read: Order)
    requires Sound(inv) && PositiveItems(read.items) && CommitLines(inv, ActiveLines(read.items)).Some?
    ensures var out := CommitLines(inv, ActiveLines(read.items)).value;
            Sound(out) && Shifted(inv, out, ActiveLines(read.items), Lose, Lose)
  {
    ActiveLinesGood(read.items);
    CommitLinesCorrect(inv, ActiveLines(read.items));
  }

  lemma ShippedAt(t: Tables, orderId: int, read: Order, v: int)
    requires Accounted(t) && orderId in t.orders && PositiveItems(read.items) && ShipOrder(t, orderId, read).Some?
    ensures var out := ShipOrder(t, orderId, read).value;
            Reserved(out.inv, At(v)) == Held(out, v) <==> OrderUnits(t.orders[orderId], v) == OrderUnits(read, v)
  {
    if PreShipment(read.status) {
      ShippedInventory(t.inv, read);
    }
    HeldOrderUpdate(t, orderId, ShipOrder(t, orderId, read).value.orders[orderId], v);
    assert Reserved(t.inv, At(v)) == Held(t, v);
  }

  /** Shipping on a stale read keeps the accounts exactly when the order still holds what was read. */
  lemma ShipAfterChange(t: Tables, orderId: int, read: Order)
    requires Accounted(t) && orderId in t.orders && LaterThan(read, t.orders[orderId])
    requires ShipOrder(t, orderId, read).Some?
    ensures Accounted(ShipOrder(t, orderId, read).value)
       <==> forall v :: OrderUnits(t.orders[orderId], v) == OrderUnits(read, v)
  {
    var o, out := t.orders[orderId], ShipOrder(t, orderId, read).value;
    assert PositiveItems(read.items) by {
      forall i | 0 <= i < |read.items| ensures read.items[i].quantity > 0 {
        assert o.items[i].quantity > 0;
      }
    }
    if PreShipment(read.status) {
      ShippedInventory(t.inv, read);
    }
    forall v
      ensures Reserved(out.inv, At(v)) == Held(out, v) <==> OrderUnits(o, v) == OrderUnits(read, v)
    {
      ShippedAt(t, orderId, read, v);
    }
  }

  lemma SetStatusOfEmptyOrder(t: Tables, orderId: int, status: OrderStatus)
    requires Accounted(t) && orderId in t.orders && NothingActive(t.orders[orderId].items)
    ensures Accounted(SetStatus(t, orderId, status).value)
  {
    var out := SetStatus(t, orderId, status).value;
    NoActiveLines(t.orders[orderId].items);
    forall v ensures Reserved(out.inv, At(v)) == Held(out, v) {
      HeldOrderUpdate(t, orderId, out.orders[orderId], v);
      assert Reserved(t.inv, At(v)) == Held(t, v);
    }
  }

  lemma SetStatusAcrossClasses(t: Tables, orderId: int, status: OrderStatus)
    requires Accounted(t) && orderId in t.orders && !NothingActive(t.orders[orderId].items)
    requires PreShipment(t.orders[orderId].status) != PreShipment(status)
    ensures !Accounted(SetStatus(t, orderId, status).value)
  {
    var o, out := t.orders[orderId], SetStatus(t, orderId, status).value;
    var i :| 0 <= i < |o.items| && !o.items[i].cancelled;
    var v := o.items[i].variantId;
    ActiveUnits(o.items, i);
    HeldOrderUpdate(t, orderId, out.orders[orderId], v);
    assert Reserved(t.inv, At(v)) == Held(t, v);
    assert Reserved(out.inv, At(v)) != Held(out, v);
  }

  /** A bare status update keeps the accounts exactly when it stays among the holding statuses, stays outside them, or
      the order has no active item. It is what the payment webhook, the refund claim and the admin update do. */
  lemma StatusWriteKeepsAccountsIff(t: Tables, orderId: int, status: OrderStatus)
    requires Accounted(t) && orderId in t.orders
    ensures Accounted(SetStatus(t, orderId, status).value)
       <==> || PreShipment(t.orders[orderId].status) == PreShipment(status)
            || NothingActive(t.orders[orderId].items)
  {
    if PreShipment(t.orders[orderId].status) == PreShipment(status) {
      SetStatusKeeps(t, orderId, status);
    } else if NothingActive(t.orders[orderId].items) {
      SetStatusOfEmptyOrder(t, orderId, status);
    } else {
      SetStatusAcrossClasses(t, orderId, status);
    }
  }

  // ---------- Two cancellations of one item ----------

  const ONE_ITEM := Order(Some(7), CONFIRMED, [OrderItem(1, 1, false), OrderItem(2, 1, false)])

  /** Five units of variant 1, of which order 1 holds one and reservation 1 holds one; and one unit of variant 2. */
  const SHOP := Tables(
    Inventory(map[Key(DEFAULT_WAREHOUSE, 1) := Row(5, 2), Key(DEFAULT_WAREHOUSE, 2) := Row(1, 1)],
              map[1 := Variant(5, 2, 0), 2 := Variant(1, 1, 0)]),
    map[1 := Reservation(8, ACTIVE, 100, false, [Line(DEFAULT_WAREHOUSE, 1, 1)])],
    map[1 := ONE_ITEM])

  lemma ShopIsCached(v: int)
    requires v in SHOP.inv.variants
    ensures Cached(SHOP.inv, v)
  {
    var k1, k2 := Key(DEFAULT_WAREHOUSE, 1), Key(DEFAULT_WAREHOUSE, 2);
    var first: map<Key, Row> := map[k1 := Row(5, 2)];
    assert SHOP.inv.rows == first[k2 := Row(1, 1)];
    assert first == map[][k1 := Row(5, 2)];
    SumRowsUpdate(map[], StockOf(v), k1, Row(5, 2));
    SumRowsUpdate(first, StockOf(v), k2, Row(1, 1));
    SumRowsUpdate(map[], ReservedOf(v), k1, Row(5, 2));
    SumRowsUpdate(first, ReservedOf(v), k2, Row(1, 1));
  }

  lemma ShopIsHeld(v: int)
    ensures Reserved(SHOP.inv, At(v)) == Held(SHOP, v)
  {
    var items, line := ONE_ITEM.items, Line(DEFAULT_WAREHOUSE, 1, 1);
    assert items[..1] == [items[0]] && [items[0]][..0] == [];
    SingleLine(line);
    assert ActiveLines([items[0]]) == [line];
    QtyOneMore([line], items[1], At(v));
    assert SHOP.reservations == map[][1 := SHOP.reservations[1]] && SHOP.orders == map[][1 := ONE_ITEM];
    SumRowsUpdate(map[], ReservationHold(v), 1, SHOP.reservations[1]);
    SumRowsUpdate(map[], OrderHold(v), 1, ONE_ITEM);
  }

  lemma ShopIsSound()
    ensures Sound(SHOP.inv)
  {
    forall v | v in SHOP.inv.variants ensures Cached(SHOP.inv, v) {
      ShopIsCached(v);
    }
  }

  lemma ShopIsAccounted()
    ensures Accounted(SHOP)
  {
    ShopIsSound();
    assert GoodRows(SHOP);
    forall v ensures Reserved(SHOP.inv, At(v)) == Held(SHOP, v) {
      ShopIsHeld(v);
    }
  }

  lemma UncoveredMeansUnaccounted(t: Tables, id: int, v: int)
    requires id in t.reservations && ReservationUnits(t.reservations[id], v) > Reserved(t.inv, At(v))
    ensures !Accounted(t)
  {
    if Accounted(t) {
      HoldersAreCovered(t, v);
    }
  }

  /** Both requests read the order, then both commit: the reservation of another user is no longer backed by stock. */
  lemma DoubleCancelTakesAnothersUnit()
    ensures Accounted(SHOP)
    ensures var first := CancelOrderItem(SHOP, 7, 1, 0, ONE_ITEM);
            && first.Some?
            && var second := CancelOrderItem(first.value, 7, 1, 0, ONE_ITEM);
            && second.Some?
            && second.value.reservations[1].status.ACTIVE?
            && ReservationUnits(second.value.reservations[1], 1) == 1
            && Reserved(second.value.inv, At(1)) == 0
            && !Accounted(second.value)
  {
    ShopIsAccounted();
    var first := CancelOrderItem(SHOP, 7, 1, 0, ONE_ITEM).value;
    var second := CancelOrderItem(first, 7, 1, 0, ONE_ITEM).value;
    SingleLine(Line(DEFAULT_WAREHOUSE, 1, 1));
    assert Reserved(first.inv, At(1)) == 1;
    UncoveredMeansUnaccounted(second, 1, 1);
  }

  /** One item is cancelled between the read and the shipment: the shipment takes the unit that the reservation of
      another user holds. */
  lemma StaleShipTakesAnothersUnit()
    ensures Accounted(SHOP)
    ensures var first := CancelOrderItem(SHOP, 7, 1, 0, ONE_ITEM);
            && first.Some? && Accounted(first.value)
            && var shipped := ShipOrder(first.value, 1, ONE_ITEM);
            && shipped.Some?
            && shipped.value.reservations[1].status.ACTIVE?
            && ReservationUnits(shipped.value.reservations[1], 1) == 1
            && Reserved(shipped.value.inv, At(1)) == 0
            && !Accounted(shipped.value)
  {
    ShopIsAccounted();
    var first := CancelOrderItem(SHOP, 7, 1, 0, ONE_ITEM).value;
    CancelItemAfterChange(SHOP, 7, 1, 0, ONE_ITEM);
    BothItemsShip(first.inv);
    SingleLine(Line(DEFAULT_WAREHOUSE, 1, 1));
    UncoveredMeansUnaccounted(ShipOrder(first, 1, ONE_ITEM).value, 1, 1);
  }

  lemma {:induction false} BothItemsShip(inv: Inventory)
    requires At(1) in inv.rows && inv.rows[At(1)] == Row(5, 1) && At(2) in inv.rows && inv.rows[At(2)] == Row(1, 1)
    ensures CommitLines(inv, ActiveLines(ONE_ITEM.items)).Some?
    ensures Reserved(CommitLines(inv, ActiveLines(ONE_ITEM.items)).value, At(1)) == 0
  {
    var items, l1, l2 := ONE_ITEM.items, Line(DEFAULT_WAREHOUSE, 1, 1), Line(DEFAULT_WAREHOUSE, 2, 1);
    assert items[..1] == [items[0]] && [items[0]][..0] == [];
    assert ActiveLines([items[0]]) == [l1];
    assert ActiveLines(items) == [l1, l2];
    assert [l1, l2][..1] == [l1] && [l1][..0] == [];
    assert CommitLines(inv, [l1]) == CommitShipment(inv, 1, 1);
  }
}
