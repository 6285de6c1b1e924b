/** What each transaction on orders and reservations decides, in every run of the store: when it commits, what it then
    writes, and that nothing else writes it. */
module OrderLaws {
  import opened Schema
  import opened InventoryMoves
  import opened Reservations
  import opened Orders
  import opened Accounting
  import opened StaleReads
  import opened StoreMachine
  import StoreAccounts

  // ---------- Quantities are positive in every run ----------

  ghost predicate PositiveRows(t: Tables) {
    && (forall id :: id in t.orders ==> PositiveItems(t.orders[id].items))
    && (forall id :: id in t.reservations ==> Positive(t.reservations[id].items))
  }

  lemma {:induction false} GuestOrderPositive(t: Tables, orderId: int, items: seq<GuestItem>, couponOk: bool)
    requires PlaceGuestOrder(t, orderId, items, couponOk).Some?
    ensures PositiveItems(GuestOrderItems(items))
  {
    GuestLinesPositive(t.inv, items);
    forall i | 0 <= i < |items| ensures GuestOrderItems(items)[i].quantity > 0 {
      assert GuestLines(items)[i].quantity > 0;
    }
  }

  lemma {:induction false} StepKeepsPositive(s: Sys, step: Step)
    requires CallsCurrent(s) && PositiveRows(s.t)
    ensures PositiveRows(Next(s, step).t)
  {
    var out := Next(s, step).t;
    if Commit(s, step).Some? {
      CommitMovesOn(s, step);
      if step.GuestCheckout? {
        GuestOrderPositive(s.t, step.newOrderId, step.guestItems, step.couponOk);
      }
      forall id | id in out.orders
        ensures PositiveItems(out.orders[id].items)
      {
        if id in s.t.orders {
          forall i | 0 <= i < |out.orders[id].items| ensures out.orders[id].items[i].quantity > 0 {
            assert s.t.orders[id].items[i].quantity > 0;
          }
        }
      }
    }
  }

  lemma {:induction false} RunPositive(s: Sys, steps: seq<Step>)
    requires Init(s)
    ensures PositiveRows(Run(s, steps).t)
    decreases |steps|
  {
    if steps != [] {
      RunPositive(s, steps[..|steps| - 1]);
      RunConsistent(s, steps[..|steps| - 1]);
      StepKeepsPositive(Run(s, steps[..|steps| - 1]), steps[|steps| - 1]);
    }
  }

  // ---------- What a step may do to an order ----------

  /** What becomes of an order that exists when the step is made. */
  ghost predicate LawfulChange(s: Sys, step: Step, id: int, o: Order, now: Order) {
    match step
    case Cancelling(userId, orderId) =>
      && orderId == id && o.userId == Some(userId) && (o.status == PENDING || o.status == CONFIRMED)
      && now == o.(status := CANCELLED)
    case CommitItemCancel(call) =>
      && call in s.calls && s.calls[call].ItemCancel? && s.calls[call].orderId == id
      && LawfulItemCancel(s.calls[call], o, now)
    case CommitShip(call) =>
      && call in s.calls && s.calls[call].Ship? && s.calls[call].orderId == id
      && now == o.(status := SHIPPED)
    case Moving(orderId, status) =>
      orderId == id && now == o.(status := status) && (PreShipment(o.status) <==> PreShipment(status))
    case _ => false
  }

  /** One more item is cancelled; the status is the one that was read, or CANCELLED if no other item was left then. */
  ghost predicate LawfulItemCancel(c: Call, o: Order, now: Order)
    requires c.ItemCancel?
  {
    && now.userId == o.userId == Some(c.userId) && |now.items| == |o.items| && 0 <= c.index < |o.items|
    && (forall i :: 0 <= i < |o.items| ==>
          now.items[i] == if i == c.index then o.items[i].(cancelled := true) else o.items[i])
    && PreShipment(c.read.status)
    && (if exists i :: 0 <= i < |c.read.items| && i != c.index && !c.read.items[i].cancelled then
          now.status == c.read.status
        else now.status == CANCELLED)
  }

  ghost predicate NewOrder(step: Step, id: int, o: Order) {
    && (step.CommitCheckout? || step.GuestCheckout?) && step.newOrderId == id
    && o.status == PENDING && forall i :: 0 <= i < |o.items| ==> !o.items[i].cancelled
  }

  /** Owners never change. */
  ghost predicate SameOwner(s: Sys) {
    forall c :: c in s.calls && s.calls[c].ItemCancel? && s.calls[c].orderId in s.t.orders ==>
      s.calls[c].read.userId == s.t.orders[s.calls[c].orderId].userId
  }

  /** Each step changes at most the order that it names, and only in the one way that it may. */
  lemma {:induction false} OrdersChangeLawfully(s: Sys, step: Step, id: int)
    requires CallsCurrent(s) && SameOwner(s)
    ensures var out := Next(s, step).t.orders;
            if id in s.t.orders then
              && id in out
              && (out[id] == s.t.orders[id] || LawfulChange(s, step, id, s.t.orders[id], out[id]))
            else id in out ==> NewOrder(step, id, out[id])
  {
  }

  lemma {:induction false} StepKeepsOwners(s: Sys, step: Step)
    requires CallsCurrent(s) && SameOwner(s)
    ensures SameOwner(Next(s, step))
  {
    var out := Next(s, step);
    forall c | c in out.calls && out.calls[c].ItemCancel? && out.calls[c].orderId in out.t.orders
      ensures out.calls[c].read.userId == out.t.orders[out.calls[c].orderId].userId
    {
      OrdersChangeLawfully(s, step, out.calls[c].orderId);
      if c in s.calls {
        assert CallCurrent(s.t, s.calls[c]);
      }
    }
  }

  lemma {:induction false} RunKeepsOwners(s: Sys, steps: seq<Step>)
    requires Init(s)
    ensures SameOwner(Run(s, steps))
    decreases |steps|
  {
    if steps != [] {
      RunKeepsOwners(s, steps[..|steps| - 1]);
      RunConsistent(s, steps[..|steps| - 1]);
      StepKeepsOwners(Run(s, steps[..|steps| - 1]), steps[|steps| - 1]);
    }
  }

  /** In every run, whatever was read too early: an order is changed only by the steps that name it, and a step leaves
      it in the status that its kind prescribes, from a status that its kind allows. */
  lemma {:induction false} OrderStatusLaw(s: Sys, steps: seq<Step>, step: Step, id: int)
    requires Init(s)
    ensures var r := Run(s, steps);
            var out := Next(r, step).t.orders;
            if id in r.t.orders then
              id in out && (out[id] == r.t.orders[id] || LawfulChange(r, step, id, r.t.orders[id], out[id]))
            else id in out ==> NewOrder(step, id, out[id])
  {
    RunConsistent(s, steps);
    RunKeepsOwners(s, steps);
    OrdersChangeLawfully(Run(s, steps), step, id);
  }

  // ---------- cancelOrder ----------

  lemma {:induction false} ReleaseLinesKeepsChecks(inv: Inventory, lines: seq<Line>)
    requires ChecksHold(inv) && Positive(lines)
    ensures ChecksHold(ReleaseLines(inv, lines))
    decreases |lines|
  {
    if lines != [] {
      ReleaseLinesKeepsChecks(inv, lines[..|lines| - 1]);
      var last := lines[|lines| - 1];
      StoreAccounts.ReleaseKeepsChecks(ReleaseLines(inv, lines[..|lines| - 1]), last.variantId, last.quantity);
    }
  }

  /** In every run a cancellation commits exactly if the order is the caller's and is PENDING or CONFIRMED, and leaves
      it CANCELLED and every other order alone; otherwise it changes nothing. */
  lemma {:induction false} CancelsIff(s: Sys, steps: seq<Step>, userId: int, orderId: int)
    requires Init(s)
    ensures var r := Run(s, steps);
            var out := Next(r, Cancelling(userId, orderId)).t;
            if orderId in r.t.orders && r.t.orders[orderId].userId == Some(userId)
               && (r.t.orders[orderId].status == PENDING || r.t.orders[orderId].status == CONFIRMED)
            then
              && out.orders == r.t.orders[orderId := r.t.orders[orderId].(status := CANCELLED)]
              && out.reservations == r.t.reservations
            else out == r.t
  {
    RunConsistent(s, steps);
    RunPositive(s, steps);
    if CancelOrder(Run(s, steps).t, userId, orderId).Some? {
      CancellationKeepsChecks(Run(s, steps).t, userId, orderId);
    }
  }

  lemma {:induction false} CancellationKeepsChecks(t: Tables, userId: int, orderId: int)
    requires ChecksHold(t.inv) && PositiveRows(t) && CancelOrder(t, userId, orderId).Some?
    ensures ChecksHold(CancelOrder(t, userId, orderId).value.inv)
  {
    ActiveLinesGood(t.orders[orderId].items);
    ReleaseLinesKeepsChecks(t.inv, ActiveLines(t.orders[orderId].items));
  }

  /** When the accounts hold, it gives back exactly the units that the order holds. */
  lemma {:induction false} CancelledUnitsReturn(s: Sys, steps: seq<Step>, userId: int, orderId: int, v: int)
    requires Init(s) && StoreAccounts.AllFit(s, steps)
    requires CancelOrder(Run(s, steps).t, userId, orderId).Some?
    ensures var r := Run(s, steps);
            var out := Next(r, Cancelling(userId, orderId)).t;
            && Reserved(out.inv, At(v)) == Reserved(r.t.inv, At(v)) - OrderUnits(r.t.orders[orderId], v)
            && Supply(out.inv, v) == Supply(r.t.inv, v)
  {
    StoreAccounts.AccountsHoldIff(s, steps);
    RunConsistent(s, steps);
    StoreAccounts.ChecksNeverThrow(Run(s, steps), Cancelling(userId, orderId));
    HeldUnitsReturn(Run(s, steps).t, userId, orderId, v);
  }

  lemma {:induction false} HeldUnitsReturn(t: Tables, userId: int, orderId: int, v: int)
    requires Accounted(t) && CancelOrder(t, userId, orderId).Some?
    ensures var out := CancelOrder(t, userId, orderId).value;
            && Reserved(out.inv, At(v)) == Reserved(t.inv, At(v)) - OrderUnits(t.orders[orderId], v)
            && Supply(out.inv, v) == Supply(t.inv, v)
  {
    var out := CancelOrder(t, userId, orderId).value;
    CancelOrderKeeps(t, userId, orderId);
    HeldOrderUpdate(t, orderId, out.orders[orderId], v);
    assert Reserved(out.inv, At(v)) == Held(out, v) && Reserved(t.inv, At(v)) == Held(t, v);
  }

  // ---------- cancelOrderItem and SHIPPED on a current read ----------

  ghost predicate CurrentRead(s: Sys, call: int) {
    && call in s.calls && (s.calls[call].ItemCancel? || s.calls[call].Ship?)
    && s.calls[call].orderId in s.t.orders && s.t.orders[s.calls[call].orderId] == s.calls[call].read
  }

  /** An item cancellation whose order did not change since it was read commits exactly if the order is the caller's
      and has not shipped, and the item exists and is not cancelled. It gives back the item's units and cancels the
      item, and the order with it if no other item is left. */
  lemma {:induction false} ItemCancelsIff(s: Sys, steps: seq<Step>, call: int, v: int)
    requires Init(s) && StoreAccounts.AllFit(s, steps)
    requires CurrentRead(Run(s, steps), call) && Run(s, steps).calls[call].ItemCancel?
    ensures var r := Run(s, steps);
            var c, out := r.calls[call], Next(r, CommitItemCancel(call)).t;
            if c.read.userId == Some(c.userId) && HeldItemAt(c.read, c.index) then ItemIsCancelled(r.t, out, c, v)
            else out == r.t
  {
    StoreAccounts.AccountsHoldIff(s, steps);
    RunConsistent(s, steps);
    CurrentItemCancelCommits(Run(s, steps), call, v);
  }

  lemma {:induction false} CurrentItemCancelCommits(r: Sys, call: int, v: int)
    requires Consistent(r) && Accounted(r.t) && CurrentRead(r, call) && r.calls[call].ItemCancel?
    ensures var c, out := r.calls[call], Next(r, CommitItemCancel(call)).t;
            if c.read.userId == Some(c.userId) && HeldItemAt(c.read, c.index) then ItemIsCancelled(r.t, out, c, v)
            else out == r.t
  {
    StoreAccounts.ChecksNeverThrow(r, CommitItemCancel(call));
    CurrentItemCancels(r.t, r.calls[call], v);
  }

  lemma {:induction false} CurrentItemCancels(t: Tables, c: Call, v: int)
    requires Accounted(t) && c.ItemCancel? && c.orderId in t.orders && t.orders[c.orderId] == c.read
    ensures var out := CancelOrderItem(t, c.userId, c.orderId, c.index, c.read);
            if c.read.userId == Some(c.userId) && HeldItemAt(c.read, c.index) then
              out.Some? && ItemIsCancelled(t, out.value, c, v)
            else out.None?
  {
    if c.read.userId == Some(c.userId) && HeldItemAt(c.read, c.index) {
      CancelItemKeeps(t, c.userId, c.orderId, c.index);
      ReleasedItem(t, c.orderId, c.index, v);
    }
  }

  predicate HeldItemAt(o: Order, index: int) {
    && (o.status == PENDING || o.status == CONFIRMED || o.status == PROCESSING)
    && 0 <= index < |o.items| && !o.items[index].cancelled
  }

  ghost predicate ItemIsCancelled(t: Tables, out: Tables, c: Call, v: int)
    requires c.ItemCancel? && HeldItemAt(c.read, c.index)
  {
    var o, item := c.read, c.read.items[c.index];
    var last := forall i :: 0 <= i < |o.items| && !o.items[i].cancelled ==> i == c.index;
    && out.orders == t.orders[c.orderId := o.(items := o.items[c.index := item.(cancelled := true)],
                                              status := if last then CANCELLED else o.status)]
    && out.reservations == t.reservations
    && Reserved(out.inv, At(v)) == Reserved(t.inv, At(v)) - (if v == item.variantId then item.quantity else 0)
    && Supply(out.inv, v) == Supply(t.inv, v)
  }

  lemma {:induction false} ReleasedItem(t: Tables, orderId: int, index: nat, v: int)
    requires Accounted(t) && orderId in t.orders && PreShipment(t.orders[orderId].status)
    requires index < |t.orders[orderId].items| && !t.orders[orderId].items[index].cancelled
    ensures var item := t.orders[orderId].items[index];
            Reserved(Release(t.inv, item.variantId, item.quantity), At(v))
            == Reserved(t.inv, At(v)) - if v == item.variantId then item.quantity else 0
  {
    var item := t.orders[orderId].items[index];
    var line := Line(DEFAULT_WAREHOUSE, item.variantId, item.quantity);
    ItemIsCovered(t, orderId, index);
    ReleaseIsMove(t.inv, line);
  }

  /** A shipment whose order did not change since it was read always commits: the order is SHIPPED, its units have left
      stock and reserved together, and count as sold. */
  lemma {:induction false} CurrentReadShips(s: Sys, steps: seq<Step>, call: int, v: int)
    requires Init(s) && StoreAccounts.AllFit(s, steps)
    requires CurrentRead(Run(s, steps), call) && Run(s, steps).calls[call].Ship?
    ensures var r := Run(s, steps);
            var c, out := r.calls[call], Next(r, CommitShip(call)).t;
            && out.orders == r.t.orders[c.orderId := c.read.(status := SHIPPED)]
            && Reserved(out.inv, At(v)) == Reserved(r.t.inv, At(v)) - OrderUnits(c.read, v)
            && Stock(out.inv, At(v)) == Stock(r.t.inv, At(v)) - OrderUnits(c.read, v)
            && Supply(out.inv, v) == Supply(r.t.inv, v)
  {
    StoreAccounts.AccountsHoldIff(s, steps);
    RunConsistent(s, steps);
    CurrentShipCommits(Run(s, steps), call, v);
  }

  lemma {:induction false} CurrentShipCommits(r: Sys, call: int, v: int)
    requires Consistent(r) && Accounted(r.t) && CurrentRead(r, call) && r.calls[call].Ship?
    ensures var c, out := r.calls[call], Next(r, CommitShip(call)).t;
            && out.orders == r.t.orders[c.orderId := c.read.(status := SHIPPED)]
            && Reserved(out.inv, At(v)) == Reserved(r.t.inv, At(v)) - OrderUnits(c.read, v)
            && Stock(out.inv, At(v)) == Stock(r.t.inv, At(v)) - OrderUnits(c.read, v)
            && Supply(out.inv, v) == Supply(r.t.inv, v)
  {
    StoreAccounts.ChecksNeverThrow(r, CommitShip(call));
    assert CallCurrent(r.t, r.calls[call]);
    ShippedUnits(r.t, r.calls[call].orderId, v);
  }

  lemma {:induction false} ShippedUnits(t: Tables, orderId: int, v: int)
    requires Accounted(t) && orderId in t.orders && PreShipment(t.orders[orderId].status)
    ensures var o, shipped := t.orders[orderId], ShipOrder(t, orderId, t.orders[orderId]);
            && shipped.Some? && shipped.value.orders == t.orders[orderId := o.(status := SHIPPED)]
            && Reserved(shipped.value.inv, At(v)) == Reserved(t.inv, At(v)) - OrderUnits(o, v)
            && Stock(shipped.value.inv, At(v)) == Stock(t.inv, At(v)) - OrderUnits(o, v)
            && Supply(shipped.value.inv, v) == Supply(t.inv, v)
  {
    ShipOrderKeeps(t, orderId);
    ShippedInventory(t.inv, t.orders[orderId]);
  }

  // ---------- Creating, consuming and releasing reservations ----------

  ghost predicate PositiveCart(cart: seq<CartItem>) {
    forall i :: 0 <= i < |cart| ==> cart[i].quantity > 0
  }

  /** When the accounts hold, a reservation is created exactly if the cart is a real one of known variants and, per
      variant, fits the stock less everything that reservations and orders hold. */
  lemma {:induction false} ReservesIff(s: Sys, steps: seq<Step>, id: int, userId: int, cart: seq<CartItem>,
                                       expiresAt: int, isFlash: bool)
    requires Init(s) && StoreAccounts.AllFit(s, steps)
    ensures var r := Run(s, steps);
            var out := Next(r, Reserving(id, userId, cart, expiresAt, isFlash)).t;
            if id !in r.t.reservations && cart != [] && PositiveCart(cart)
               && (forall i :: 0 <= i < |cart| ==> cart[i].variantId in r.t.inv.variants)
               && (forall v :: QtyAt(CartLines(cart), At(v)) <= Stock(r.t.inv, At(v)) - Held(r.t, v))
            then
              && id in out.reservations && out.orders == r.t.orders
              && out.reservations
                 == r.t.reservations[id := Reservation(userId, ACTIVE, expiresAt, isFlash, CartLines(cart))]
              && forall v :: Reserved(out.inv, At(v)) == Reserved(r.t.inv, At(v)) + QtyAt(CartLines(cart), At(v))
            else out == r.t
  {
    var r, step := Run(s, steps), Reserving(id, userId, cart, expiresAt, isFlash);
    StoreAccounts.AccountsHoldIff(s, steps);
    RunConsistent(s, steps);
    StoreAccounts.ChecksNeverThrow(r, step);
    if id !in r.t.reservations && cart != [] && PositiveCart(cart) {
      CartFitsIff(r.t, cart);
      ReserveLinesCorrect(r.t.inv, CartLines(cart));
    }
  }

  lemma {:induction false} CartFitsIff(t: Tables, cart: seq<CartItem>)
    requires Accounted(t)
    ensures Sellable(t.inv, CartLines(cart))
       <==> (forall i :: 0 <= i < |cart| ==> cart[i].variantId in t.inv.variants)
            && (forall v :: QtyAt(CartLines(cart), At(v)) <= Stock(t.inv, At(v)) - Held(t, v))
  {
    var lines := CartLines(cart);
    forall v ensures Reserved(t.inv, At(v)) == Held(t, v) {
    }
    if forall i :: 0 <= i < |cart| ==> cart[i].variantId in t.inv.variants {
      forall i | 0 <= i < |lines| ensures lines[i].variantId in t.inv.variants {
        assert cart[i].variantId in t.inv.variants;
      }
    }
    if Known(t.inv, lines) {
      forall i | 0 <= i < |cart| ensures cart[i].variantId in t.inv.variants {
        assert lines[i].variantId in t.inv.variants;
      }
    }
    if forall v :: QtyAt(lines, At(v)) <= Stock(t.inv, At(v)) - Held(t, v) {
      forall k ensures QtyAt(lines, k) <= Stock(t.inv, k) - Reserved(t.inv, k) {
        if k.warehouseId == DEFAULT_WAREHOUSE {
          assert k == At(k.variantId);
        } else {
          QtyElsewhere(lines, k);
        }
      }
    }
  }

  /** At any time an ACTIVE reservation is either good for its owner's checkout or due for the expiry cron, never
      both. */
  lemma ValidOrOverdue(t: Tables, id: int, now: int)
    requires id in t.reservations && t.reservations[id].status.ACTIVE?
    ensures ValidForCheckout(t, id, t.reservations[id].userId, now, true) <==> !Overdue(t.reservations[id], now)
    ensures Overdue(t.reservations[id], now) <==> t.reservations[id].expiresAt <= now
  {
  }

  /** In every run a checkout commits exactly if its reservation is still ACTIVE; the order is PENDING and has the owner
      and the items of the reservation, which is CONSUMED. */
  lemma {:induction false} ChecksOutIff(s: Sys, steps: seq<Step>, call: int, orderId: int, couponOk: bool)
    requires Init(s) && call in Run(s, steps).calls && Run(s, steps).calls[call].Checkout?
    requires orderId !in Run(s, steps).t.orders
    ensures var r := Run(s, steps);
            var id, out := r.calls[call].id, Next(r, CommitCheckout(call, orderId, couponOk)).t;
            && id in r.t.reservations
            && var held := r.t.reservations[id];
               if held.status.ACTIVE? && couponOk then
                 && out.inv == r.t.inv && out.reservations == r.t.reservations[id := held.(status := CONSUMED)]
                 && orderId in out.orders && out.orders == r.t.orders[orderId := out.orders[orderId]]
                 && Bought(held, out.orders[orderId]) && out.orders[orderId].status == PENDING
               else out == r.t
  {
    RunConsistent(s, steps);
    assert CallCurrent(Run(s, steps).t, Run(s, steps).calls[call]);
  }

  /** The order is what the reservation was for. */
  predicate Bought(held: Reservation, o: Order) {
    && o.userId == Some(held.userId) && |o.items| == |held.items|
    && forall i :: 0 <= i < |o.items| ==>
         o.items[i].variantId == held.items[i].variantId && o.items[i].quantity == held.items[i].quantity
  }

  /** In every run a release that began commits as EXPIRED exactly if the reservation is still ACTIVE, and otherwise
      changes nothing. */
  lemma {:induction false} ReleasesIff(s: Sys, steps: seq<Step>, call: int)
    requires Init(s) && call in Run(s, steps).calls && Run(s, steps).calls[call].Releasing?
    ensures var r := Run(s, steps);
            var id, out := r.calls[call].id, Next(r, FinishRelease(call)).t;
            && id in r.t.reservations
            && if r.t.reservations[id].status.ACTIVE? then
                 && out.reservations == r.t.reservations[id := r.t.reservations[id].(status := EXPIRED)]
                 && out.orders == r.t.orders
               else out == r.t
  {
    RunConsistent(s, steps);
    RunPositive(s, steps);
    var r := Run(s, steps);
    assert CallCurrent(r.t, r.calls[call]);
    ReleaseHoldsKeepsChecks(r.t.inv, r.calls[call].items);
  }

  lemma {:induction false} ReleaseHoldsKeepsChecks(inv: Inventory, lines: seq<Line>)
    requires ChecksHold(inv) && Positive(lines)
    ensures ChecksHold(ReleaseHolds(inv, lines))
    decreases |lines|
  {
    if lines != [] {
      ReleaseHoldsKeepsChecks(inv, lines[..|lines| - 1]);
    }
  }

  /** When the accounts hold, a tick of the expiry cron ends every reservation it selected, and no other. */
  lemma {:induction false} SelectedExpire(s: Sys, steps: seq<Step>, now: int, locked: set<int>, ids: seq<int>, id: int)
    requires Init(s) && StoreAccounts.AllFit(s, steps) && Selected(Run(s, steps).t.reservations, now, locked, ids)
    requires id in Run(s, steps).t.reservations
    ensures var r := Run(s, steps).t.reservations;
            var out := Next(Run(s, steps), ExpiryCron(now, locked, ids)).t;
            && id in out.reservations && out.orders == Run(s, steps).t.orders
            && out.reservations[id] == if id in ids then r[id].(status := EXPIRED) else r[id]
  {
    StoreAccounts.AccountsHoldIff(s, steps);
    RunConsistent(s, steps);
    StoreAccounts.ChecksNeverThrow(Run(s, steps), ExpiryCron(now, locked, ids));
  }

  // ---------- Status moves and restocks ----------

  /** In every run a status update within one class of statuses is made exactly if the order exists. */
  lemma {:induction false} MovesIff(s: Sys, steps: seq<Step>, orderId: int, status: OrderStatus)
    requires Init(s)
    ensures var r := Run(s, steps);
            var out := Next(r, Moving(orderId, status)).t;
            if orderId in r.t.orders && PreShipment(r.t.orders[orderId].status) == PreShipment(status) then
              out == r.t.(orders := r.t.orders[orderId := r.t.orders[orderId].(status := status)])
            else out == r.t
  {
    RunConsistent(s, steps);
  }

  /** In every run a restock of a positive quantity of a known variant is on the shelf afterwards, and sellable. */
  lemma {:induction false} RestocksIff(s: Sys, steps: seq<Step>, v: int, qty: int)
    requires Init(s)
    ensures var r := Run(s, steps);
            var out := Next(r, Restocking(v, qty)).t;
            if qty > 0 && v in r.t.inv.variants then
              && OnTheShelf(r.t.inv, out.inv, v, qty)
              && out.reservations == r.t.reservations && out.orders == r.t.orders
            else out == r.t
  {
    RunConsistent(s, steps);
    RestockShelves(Run(s, steps).t.inv, v, qty);
  }

  ghost predicate OnTheShelf(inv: Inventory, out: Inventory, v: int, qty: int) {
    && Stock(out, At(v)) == Stock(inv, At(v)) + qty && Reserved(out, At(v)) == Reserved(inv, At(v))
    && forall k :: k != At(v) ==> Stock(out, k) == Stock(inv, k)
  }

  lemma {:induction false} RestockShelves(inv: Inventory, v: int, qty: int)
    requires ChecksHold(inv) && forall k :: k in inv.rows ==> k.variantId in inv.variants
    ensures var out := Restock(inv, v, qty);
            if qty > 0 && v in inv.variants then
              out.Some? && ChecksHold(out.value) && OnTheShelf(inv, out.value, v, qty)
            else out.None? || out.value == inv
  {
  }

  // ---------- A call that nobody interrupts ----------

  lemma {:induction false} RunOneMore(s: Sys, steps: seq<Step>, step: Step)
    ensures Run(s, steps + [step]) == Next(Run(s, steps), step)
  {
    assert (steps + [step])[..|steps|] == steps;
  }

  /** In every run the owner of an ACTIVE reservation can check it out until it expires, and not from then on. */
  lemma {:induction false} CheckoutGoesThroughIff(s: Sys, steps: seq<Step>, call: int, id: int, now: int, orderId: int)
    requires Init(s) && call !in Run(s, steps).calls && orderId !in Run(s, steps).t.orders
    requires id in Run(s, steps).t.reservations && Run(s, steps).t.reservations[id].status.ACTIVE?
    ensures var r := Run(s, steps);
            var held := r.t.reservations[id];
            var out := Next(Next(r, BeginCheckout(call, id, held.userId, now, true)),
                            CommitCheckout(call, orderId, true)).t;
            if now < held.expiresAt then
              && orderId in out.orders && Bought(held, out.orders[orderId])
              && out.reservations == r.t.reservations[id := held.(status := CONSUMED)]
            else out == r.t
  {
    var r := Run(s, steps);
    var begin := BeginCheckout(call, id, r.t.reservations[id].userId, now, true);
    if now < r.t.reservations[id].expiresAt {
      RunOneMore(s, steps, begin);
      ChecksOutIff(s, steps + [begin], call, orderId, true);
    }
  }

  /** When the accounts hold, every order that has not shipped can be shipped at any time. */
  lemma {:induction false} ShipmentGoesThrough(s: Sys, steps: seq<Step>, call: int, orderId: int, v: int)
    requires Init(s) && StoreAccounts.AllFit(s, steps) && call !in Run(s, steps).calls
    requires orderId in Run(s, steps).t.orders && PreShipment(Run(s, steps).t.orders[orderId].status)
    ensures var r := Run(s, steps);
            var o, out := r.t.orders[orderId], Next(Next(r, BeginShip(call, orderId)), CommitShip(call)).t;
            && out.orders == r.t.orders[orderId := o.(status := SHIPPED)]
            && Stock(out.inv, At(v)) == Stock(r.t.inv, At(v)) - OrderUnits(o, v)
  {
    StoreAccounts.AccountsHoldIff(s, steps);
    RunConsistent(s, steps);
    ShipsAtOnce(Run(s, steps), call, orderId, v);
  }

  lemma {:induction false} ShipsAtOnce(r: Sys, call: int, orderId: int, v: int)
    requires Consistent(r) && Accounted(r.t) && call !in r.calls
    requires orderId in r.t.orders && PreShipment(r.t.orders[orderId].status)
    ensures var o, out := r.t.orders[orderId], Next(Next(r, BeginShip(call, orderId)), CommitShip(call)).t;
            && out.orders == r.t.orders[orderId := o.(status := SHIPPED)]
            && Stock(out.inv, At(v)) == Stock(r.t.inv, At(v)) - OrderUnits(o, v)
  {
    var begun := Next(r, BeginShip(call, orderId));
    StepConsistent(r, BeginShip(call, orderId));
    assert begun.t == r.t && begun.calls == r.calls[call := Ship(orderId, r.t.orders[orderId])];
    CurrentShipCommits(begun, call, v);
  }

  /** And each of its items can be cancelled by its owner, if not cancelled before. */
  lemma {:induction false} ItemCancellationGoesThrough(s: Sys, steps: seq<Step>, call: int, userId: int, orderId: int,
                                                       index: int)
    requires Init(s) && StoreAccounts.AllFit(s, steps) && call !in Run(s, steps).calls
    requires orderId in Run(s, steps).t.orders && HeldItemAt(Run(s, steps).t.orders[orderId], index)
    requires Run(s, steps).t.orders[orderId].userId == Some(userId)
    ensures var r := Run(s, steps);
            var out := Next(Next(r, BeginItemCancel(call, userId, orderId, index)), CommitItemCancel(call)).t;
            && orderId in out.orders && index < |out.orders[orderId].items|
            && out.orders[orderId].items[index].cancelled
  {
    StoreAccounts.AccountsHoldIff(s, steps);
    RunConsistent(s, steps);
    CancelsAtOnce(Run(s, steps), call, userId, orderId, index);
  }

  lemma {:induction false} CancelsAtOnce(r: Sys, call: int, userId: int, orderId: int, index: int)
    requires Consistent(r) && Accounted(r.t) && call !in r.calls
    requires orderId in r.t.orders && HeldItemAt(r.t.orders[orderId], index)
    requires r.t.orders[orderId].userId == Some(userId)
    ensures var out := Next(Next(r, BeginItemCancel(call, userId, orderId, index)), CommitItemCancel(call)).t;
            && orderId in out.orders && index < |out.orders[orderId].items|
            && out.orders[orderId].items[index].cancelled
  {
    var begin := BeginItemCancel(call, userId, orderId, index);
    var begun := Next(r, begin);
    StepConsistent(r, begin);
    assert begun.t == r.t && begun.calls == r.calls[call := ItemCancel(userId, orderId, index, r.t.orders[orderId])];
    CurrentItemCancelCommits(begun, call, 0);
  }

  /** In every run the owner of an ACTIVE reservation can release it. */
  lemma {:induction false} ReleaseGoesThrough(s: Sys, steps: seq<Step>, call: int, id: int)
    requires Init(s) && call !in Run(s, steps).calls
    requires id in Run(s, steps).t.reservations && Run(s, steps).t.reservations[id].status.ACTIVE?
    ensures var r := Run(s, steps);
            var held := r.t.reservations[id];
            var out := Next(Next(r, BeginRelease(call, id, held.userId)), FinishRelease(call)).t;
            out.reservations == r.t.reservations[id := held.(status := EXPIRED)]
  {
    var begin := BeginRelease(call, id, Run(s, steps).t.reservations[id].userId);
    RunOneMore(s, steps, begin);
    ReleasesIff(s, steps + [begin], call);
  }

  // ---------- Guest orders ----------

  /** Units of a variant that the items take from stock: those that are not backordered. */
  function FromStock(items: seq<GuestItem>, v: int): int {
    QtyAt(GuestLines(items), At(v)) - Backordered(items, v)
  }

  ghost predicate GuestItemsFit(inv: Inventory, items: seq<GuestItem>) {
    && (forall i :: 0 <= i < |items| ==> items[i].quantity > 0 && items[i].variantId in inv.variants)
    && forall v :: FromStock(items, v) <= Stock(inv, At(v)) - Reserved(inv, At(v))
  }

  lemma {:induction false} FromStockGrows(items: seq<GuestItem>, v: int)
    requires items != [] && items[|items| - 1].quantity > 0
    ensures var last := items[|items| - 1];
            FromStock(items, v)
            == FromStock(items[..|items| - 1], v)
               + if !last.allowBackorder && last.variantId == v then last.quantity else 0
  {
    GuestLinesOneMore(items, v);
  }

  lemma {:induction false} GuestItemsFitOneMore(inv: Inventory, items: seq<GuestItem>)
    requires items != []
    ensures var front, last := items[..|items| - 1], items[|items| - 1];
            GuestItemsFit(inv, items)
            <==> && GuestItemsFit(inv, front) && last.quantity > 0 && last.variantId in inv.variants
                 && (!last.allowBackorder ==>
                       FromStock(items, last.variantId)
                       <= Stock(inv, At(last.variantId)) - Reserved(inv, At(last.variantId)))
  {
    var front, last := items[..|items| - 1], items[|items| - 1];
    if last.quantity > 0 {
      forall v ensures FromStock(front, v) <= FromStock(items, v) {
        FromStockGrows(items, v);
      }
      forall v | last.allowBackorder || v != last.variantId
        ensures FromStock(items, v) == FromStock(front, v)
      {
        FromStockGrows(items, v);
      }
    }
    if GuestItemsFit(inv, items) {
      assert last == items[|items| - 1];
      forall i | 0 <= i < |front| ensures front[i].quantity > 0 && front[i].variantId in inv.variants {
        assert front[i] == items[i];
      }
    }
    if GuestItemsFit(inv, front) && last.quantity > 0 && last.variantId in inv.variants {
      forall i | 0 <= i < |items| ensures items[i].quantity > 0 && items[i].variantId in inv.variants {
        assert i < |front| ==> front[i] == items[i];
      }
    }
  }

  /** What is left to sell after the items: backorders do not change it. */
  lemma {:induction false} GuestItemsLeave(inv: Inventory, items: seq<GuestItem>, v: int)
    requires Sound(inv) && ReserveItems(inv, items).Some?
    ensures var out := ReserveItems(inv, items).value;
            && out.variants.Keys == inv.variants.Keys
            && Stock(out, At(v)) - Reserved(out, At(v))
               == Stock(inv, At(v)) - Reserved(inv, At(v)) - FromStock(items, v)
    decreases |items|
  {
    if items != [] {
      GuestItemsLeave(inv, items[..|items| - 1], v);
      ReserveItemsSound(inv, items[..|items| - 1]);
      FromStockGrows(items, v);
    }
  }

  /** The guest reserve loop succeeds exactly if all its items are real and, per variant, those that are not backordered
      fit the sellable units together. */
  lemma {:induction false} ReserveItemsIff(inv: Inventory, items: seq<GuestItem>)
    requires Sound(inv)
    ensures ReserveItems(inv, items).Some? <==> GuestItemsFit(inv, items)
    decreases |items|
  {
    if items == [] {
      forall v ensures FromStock(items, v) <= Stock(inv, At(v)) - Reserved(inv, At(v)) {
      }
    } else {
      var front, last := items[..|items| - 1], items[|items| - 1];
      ReserveItemsIff(inv, front);
      GuestItemsFitOneMore(inv, items);
      if ReserveItems(inv, front).Some? {
        GuestItemsLeave(inv, front, last.variantId);
        ReserveItemsSound(inv, front);
        if last.quantity > 0 {
          FromStockGrows(items, last.variantId);
        }
      }
    }
  }

  /** When the accounts hold, a guest order is placed exactly if its coupon is taken, its items are real and, per
      variant, those that are not backordered fit the stock less everything that is held. It belongs to no user and is
      PENDING. */
  lemma {:induction false} GuestChecksOutIff(s: Sys, steps: seq<Step>, orderId: int, items: seq<GuestItem>,
                                             couponOk: bool)
    requires Init(s) && StoreAccounts.AllFit(s, steps)
    ensures var r := Run(s, steps);
            var out := Next(r, GuestCheckout(orderId, items, couponOk)).t;
            if orderId !in r.t.orders && couponOk
               && (forall i :: 0 <= i < |items| ==> items[i].quantity > 0 && items[i].variantId in r.t.inv.variants)
               && (forall v :: FromStock(items, v) <= Stock(r.t.inv, At(v)) - Held(r.t, v))
            then
              && orderId in out.orders && out.reservations == r.t.reservations
              && out.orders == r.t.orders[orderId := out.orders[orderId]]
              && GuestBought(items, out.orders[orderId]) && out.orders[orderId].status == PENDING
              && forall v :: Reserved(out.inv, At(v)) == Reserved(r.t.inv, At(v)) + QtyAt(GuestLines(items), At(v))
            else out == r.t
  {
    var r, step := Run(s, steps), GuestCheckout(orderId, items, couponOk);
    StoreAccounts.AccountsHoldIff(s, steps);
    RunConsistent(s, steps);
    StoreAccounts.ChecksNeverThrow(r, step);
    ReserveItemsIff(r.t.inv, items);
    forall v ensures Reserved(r.t.inv, At(v)) == Held(r.t, v) {
    }
    if ReserveItems(r.t.inv, items).Some? {
      ReserveItemsCorrect(r.t.inv, items);
    }
  }

  predicate GuestBought(items: seq<GuestItem>, o: Order) {
    && o.userId == None && |o.items| == |items|
    && forall i :: 0 <= i < |items| ==>
         o.items[i].variantId == items[i].variantId && o.items[i].quantity == items[i].quantity
  }

  // ---------- Orders leave once ----------

  /** The order holds nothing: it has left, or all its items are cancelled. */
  predicate Gone(o: Order) {
    !PreShipment(o.status) || NothingActive(o.items)
  }

  lemma {:induction false} GoneHoldsNothing(o: Order, v: int)
    requires Gone(o)
    ensures OrderUnits(o, v) == 0
  {
    if NothingActive(o.items) {
      NoActiveLines(o.items);
    }
  }

  lemma {:induction false} GoneStays(s: Sys, step: Step, id: int)
    requires Consistent(s) && Accounted(s.t) && StoreAccounts.Fits(s, step)
    requires id in s.t.orders && Gone(s.t.orders[id])
    ensures id in Next(s, step).t.orders && Gone(Next(s, step).t.orders[id])
  {
    StoreAccounts.ChecksNeverThrow(s, step);
  }

  lemma {:induction false} GoneStaysGone(s: Sys, more: seq<Step>, id: int)
    requires Consistent(s) && Accounted(s.t) && StoreAccounts.AllFit(s, more)
    requires id in s.t.orders && Gone(s.t.orders[id])
    ensures Consistent(Run(s, more)) && Accounted(Run(s, more).t)
    ensures id in Run(s, more).t.orders && Gone(Run(s, more).t.orders[id])
    decreases |more|
  {
    if more != [] {
      var mid, step := Run(s, more[..|more| - 1]), more[|more| - 1];
      GoneStaysGone(s, more[..|more| - 1], id);
      GoneStays(mid, step, id);
      StepConsistent(mid, step);
      StoreAccounts.StepAccountedIff(mid, step);
    }
  }

  /** Along a run whose commits fit, an order that has shipped or been cancelled never holds a unit again. */
  lemma {:induction false} OrdersLeaveOnce(s: Sys, steps: seq<Step>, more: seq<Step>, id: int, v: int)
    requires Init(s) && StoreAccounts.AllFit(s, steps) && StoreAccounts.AllFit(Run(s, steps), more)
    requires id in Run(s, steps).t.orders && Gone(Run(s, steps).t.orders[id])
    ensures var end := Run(Run(s, steps), more).t;
            id in end.orders && Gone(end.orders[id]) && OrderUnits(end.orders[id], v) == 0
  {
    RunConsistent(s, steps);
    StoreAccounts.AccountsHoldIff(s, steps);
    GoneStaysGone(Run(s, steps), more, id);
    GoneHoldsNothing(Run(Run(s, steps), more).t.orders[id], v);
  }

  /** So it ships only once: a shipment of such an order that fits moves no unit out. */
  lemma {:induction false} SecondShipmentMovesNothing(s: Sys, steps: seq<Step>, call: int, v: int)
    requires Init(s) && StoreAccounts.AllFit(s, steps)
    requires var r := Run(s, steps);
             && call in r.calls && r.calls[call].Ship? && r.calls[call].orderId in r.t.orders
             && Gone(r.t.orders[r.calls[call].orderId]) && StoreAccounts.Fits(r, CommitShip(call))
    ensures Stock(Next(Run(s, steps), CommitShip(call)).t.inv, At(v)) == Stock(Run(s, steps).t.inv, At(v))
  {
    var r := Run(s, steps);
    var c := r.calls[call];
    StoreAccounts.AccountsHoldIff(s, steps);
    RunConsistent(s, steps);
    StoreAccounts.ChecksNeverThrow(r, CommitShip(call));
    if Attempt(r, CommitShip(call)).Some? {
      assert CallCurrent(r.t, c);
      StoreAccounts.ReadItemsPositive(r.t, c.orderId, c.read);
      ShippedInventory(r.t.inv, c.read);
      GoneHoldsNothing(r.t.orders[c.orderId], v);
      assert OrderUnits(r.t.orders[c.orderId], v) == OrderUnits(c.read, v);
    }
  }

  // ---------- Where orders come from ----------

  ghost predicate Delivered(s: Sys, e: Event) {
    e.Consumed? ==>
      && e.id in s.t.reservations && e.orderId in s.t.orders
      && Bought(s.t.reservations[e.id], s.t.orders[e.orderId])
  }

  lemma {:induction false} StillDelivered(s: Sys, step: Step, e: Event)
    requires CallsCurrent(s) && SameOwner(s) && Delivered(s, e)
    ensures Delivered(Next(s, step), e)
  {
    CallsStayCurrent(s, step);
    if e.Consumed? {
      OrdersChangeLawfully(s, step, e.orderId);
      assert LaterThan(s.t.orders[e.orderId], Next(s, step).t.orders[e.orderId]);
    }
  }

  /** In every run, each reservation that was consumed backs an order of its own user for its own items. */
  lemma {:induction false} ConsumedIsBought(s: Sys, steps: seq<Step>, e: Event)
    requires Init(s) && e in Run(s, steps).log
    ensures Delivered(Run(s, steps), e)
    decreases |steps|
  {
    if steps != [] {
      var mid, step := Run(s, steps[..|steps| - 1]), steps[|steps| - 1];
      RunConsistent(s, steps[..|steps| - 1]);
      RunKeepsOwners(s, steps[..|steps| - 1]);
      if e in mid.log {
        ConsumedIsBought(s, steps[..|steps| - 1], e);
        StillDelivered(mid, step, e);
      } else {
        assert e in Events(mid, step);
        if e.Consumed? {
          assert CallCurrent(mid.t, mid.calls[step.call]);
        }
      }
    }
  }
}
