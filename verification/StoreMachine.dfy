/** The whole inventory, reservation and order protocol as one interleaved machine.

A step is one transaction, or the read that precedes one. placeOrder, releaseById, cancelOrderItem and the move to
SHIPPED read first and commit later: between the two any other steps may happen, of any number of callers and of the
expiry cron. A transaction that would violate a CHECK constraint throws like any other. The log records, for each
reservation, how it left ACTIVE; it is history, no step reads it.

This module proves what holds in every run whatever was read too early; StoreAccounts says when the accounts survive.
*/
module StoreMachine {
  import opened Schema
  import opened InventoryMoves
  import opened Reservations
  import opened Orders
  import opened Accounting
  import opened StaleReads
  import opened SupplyLaws
  import BatchExpiry

  /** A caller between its read and its transaction, with what it read. */
  datatype Call =
    | Checkout(id: int, userId: int, items: seq<Line>)
    | Releasing(id: int, items: seq<Line>)
    | ItemCancel(userId: int, orderId: int, index: int, read: Order)
    | Ship(orderId: int, read: Order)

  datatype Event =
    | Consumed(id: int, orderId: int)
    | HoldReleased(id: int)

  datatype Sys = Sys(t: Tables, calls: map<int, Call>, log: seq<Event>)

  datatype Step =
    | Reserving(id: int, userId: int, cart: seq<CartItem>, expiresAt: int, isFlash: bool)
    | BeginCheckout(call: int, id: int, userId: int, now: int, pricesHold: bool)
    | CommitCheckout(call: int, newOrderId: int, couponOk: bool)
    | BeginRelease(call: int, id: int, userId: int)
    | FinishRelease(call: int)
    | ExpiryCron(now: int, locked: set<int>, ids: seq<int>)
    | GuestCheckout(newOrderId: int, guestItems: seq<GuestItem>, couponOk: bool)
    | Cancelling(userId: int, orderId: int)
    | BeginItemCancel(call: int, userId: int, orderId: int, index: int)
    | CommitItemCancel(call: int)
    | BeginShip(call: int, orderId: int)
    | CommitShip(call: int)
    | Moving(orderId: int, status: OrderStatus)
    | Restocking(variantId: int, qty: int)

  // ---------- What a step does ----------

  /** The CHECK constraints of WarehouseInventory and of Variant. */
  ghost predicate ChecksHold(inv: Inventory) {
    && (forall k :: k in inv.rows ==> 0 <= inv.rows[k].reserved <= inv.rows[k].stock)
    && (forall v :: v in inv.variants ==> 0 <= inv.variants[v].reservedStock <= inv.variants[v].stock)
  }

  /** The transaction of a step, before the CHECK constraints; None if the step has none or it throws. */
  ghost function Attempt(s: Sys, step: Step): Option<Tables> {
    match step
    case Reserving(id, userId, cart, expiresAt, isFlash) =>
      // The key is fresh, and the cart table holds positive quantities only.
      if id in s.t.reservations || exists i :: 0 <= i < |cart| && cart[i].quantity <= 0 then None
      else CreateReservation(s.t, id, userId, cart, expiresAt, isFlash)
    case CommitCheckout(call, orderId, couponOk) =>
      if call !in s.calls || !s.calls[call].Checkout? || orderId in s.t.orders then None
      else PlaceOrder(s.t, orderId, s.calls[call].userId, s.calls[call].id, s.calls[call].items, couponOk)
    case FinishRelease(call) =>
      if call !in s.calls || !s.calls[call].Releasing? then None
      else Some(CommitRelease(s.t, s.calls[call].id, s.calls[call].items))
    case ExpiryCron(now, locked, ids) =>
      if Selected(s.t.reservations, now, locked, ids) then Some(BatchExpire(s.t, ids)) else None
    case GuestCheckout(orderId, items, couponOk) =>
      if orderId in s.t.orders then None else PlaceGuestOrder(s.t, orderId, items, couponOk)
    case Cancelling(userId, orderId) => CancelOrder(s.t, userId, orderId)
    case CommitItemCancel(call) =>
      if call !in s.calls || !s.calls[call].ItemCancel? then None
      else
        var c := s.calls[call];
        CancelOrderItem(s.t, c.userId, c.orderId, c.index, c.read)
    case CommitShip(call) =>
      if call !in s.calls || !s.calls[call].Ship? then None
      else ShipOrder(s.t, s.calls[call].orderId, s.calls[call].read)
    case Moving(orderId, status) =>
      if orderId !in s.t.orders || PreShipment(s.t.orders[orderId].status) != PreShipment(status) then None
      else SetStatus(s.t, orderId, status)
    case Restocking(v, qty) => RestockVariant(s.t, v, qty)
    case _ => None
  }

  ghost function Commit(s: Sys, step: Step): Option<Tables> {
    var attempt := Attempt(s, step);
    if attempt.Some? && ChecksHold(attempt.value.inv) then attempt else None
  }

  /** A read before a transaction; None if its checks fail. */
  function ReadFor(t: Tables, step: Step): Option<Call> {
    match step
    case BeginCheckout(_, id, userId, now, pricesHold) =>
      if ValidForCheckout(t, id, userId, now, pricesHold) then Some(Checkout(id, userId, t.reservations[id].items))
      else None
    case BeginRelease(_, id, userId) =>
      if id in t.reservations && t.reservations[id].userId == userId && t.reservations[id].status.ACTIVE? then
        Some(Releasing(id, t.reservations[id].items))
      else None
    case BeginItemCancel(_, userId, orderId, index) =>
      if orderId in t.orders then Some(ItemCancel(userId, orderId, index, t.orders[orderId])) else None
    case BeginShip(_, orderId) =>
      if orderId in t.orders && PreShipment(t.orders[orderId].status) then Some(Ship(orderId, t.orders[orderId]))
      else None
    case _ => None
  }

  function CallsAfter(s: Sys, step: Step): map<int, Call> {
    match step
    case BeginCheckout(call, _, _, _, _) => Began(s, step, call)
    case BeginRelease(call, _, _) => Began(s, step, call)
    case BeginItemCancel(call, _, _, _) => Began(s, step, call)
    case BeginShip(call, _) => Began(s, step, call)
    case CommitCheckout(call, orderId, _) => if orderId in s.t.orders then s.calls else s.calls - {call}
    case FinishRelease(call) => s.calls - {call}
    case CommitItemCancel(call) => s.calls - {call}
    case CommitShip(call) => s.calls - {call}
    case _ => s.calls
  }

  function Began(s: Sys, step: Step, call: int): map<int, Call> {
    if call in s.calls || ReadFor(s.t, step).None? then s.calls else s.calls[call := ReadFor(s.t, step).value]
  }

  function ReleaseEvents(ids: seq<int>): seq<Event> {
    seq(|ids|, i requires 0 <= i < |ids| => HoldReleased(ids[i]))
  }

  ghost function Events(s: Sys, step: Step): seq<Event> {
    if Commit(s, step).None? then []
    else
      match step
      case CommitCheckout(call, orderId, _) => [Consumed(s.calls[call].id, orderId)]
      case FinishRelease(call) =>
        var id := s.calls[call].id;
        if id in s.t.reservations && s.t.reservations[id].status.ACTIVE? then [HoldReleased(id)] else []
      case ExpiryCron(_, _, ids) => ReleaseEvents(ids)
      case _ => []
  }

  /** A transaction that threw leaves the tables as they were. */
  ghost function Next(s: Sys, step: Step): Sys {
    var committed := Commit(s, step);
    Sys(if committed.Some? then committed.value else s.t, CallsAfter(s, step), s.log + Events(s, step))
  }

  ghost function Run(s: Sys, steps: seq<Step>): Sys {
    if steps == [] then s else Next(Run(s, steps[..|steps| - 1]), steps[|steps| - 1])
  }

  /** No reservation, order or caller yet, and sound inventory with nothing reserved at DEFAULT. */
  ghost predicate Init(s: Sys) {
    && Sound(s.t.inv) && (forall v :: Reserved(s.t.inv, At(v)) == 0)
    && s.t.reservations == map[] && s.t.orders == map[] && s.calls == map[] && s.log == []
  }

  // ---------- What every run keeps ----------

  function Consumptions(log: seq<Event>, id: int): nat {
    if log == [] then 0
    else
      Consumptions(log[..|log| - 1], id)
      + if log[|log| - 1].Consumed? && log[|log| - 1].id == id then 1 else 0
  }

  function Releases(log: seq<Event>, id: int): nat {
    if log == [] then 0
    else
      Releases(log[..|log| - 1], id)
      + if log[|log| - 1].HoldReleased? && log[|log| - 1].id == id then 1 else 0
  }

  /** How often the reservation was consumed and released, read off its status. */
  ghost predicate Lifecycle(reservations: map<int, Reservation>, log: seq<Event>, id: int) {
    && Consumptions(log, id) == (if id in reservations && reservations[id].status.CONSUMED? then 1 else 0)
    && Releases(log, id) == (if id in reservations && reservations[id].status.EXPIRED? then 1 else 0)
  }

  /** What a caller read about a reservation is still so, and an order it read has only moved on. */
  ghost predicate CallsCurrent(s: Sys) {
    forall c :: c in s.calls ==> CallCurrent(s.t, s.calls[c])
  }

  predicate CallCurrent(t: Tables, c: Call) {
    match c
    case Checkout(id, userId, items) =>
      id in t.reservations && t.reservations[id].items == items && t.reservations[id].userId == userId
    case Releasing(id, items) => id in t.reservations && t.reservations[id].items == items
    case ItemCancel(_, orderId, _, read) => orderId in t.orders && LaterThan(read, t.orders[orderId])
    case Ship(orderId, read) => orderId in t.orders && LaterThan(read, t.orders[orderId]) && PreShipment(read.status)
  }

  ghost predicate Consistent(s: Sys) {
    && Keyed(s.t.inv) && ChecksHold(s.t.inv)
    && CallsCurrent(s)
    && forall id :: Lifecycle(s.t.reservations, s.log, id)
  }

  /** Items and owner of a reservation never change; once not ACTIVE, nothing about it changes. */
  predicate Frozen(before: map<int, Reservation>, after: map<int, Reservation>) {
    forall id :: id in before ==>
      && id in after
      && after[id].items == before[id].items && after[id].userId == before[id].userId
      && (!before[id].status.ACTIVE? ==> after[id] == before[id])
  }

  /** Orders are never deleted, and only move on. */
  predicate OrdersMoveOn(before: map<int, Order>, after: map<int, Order>) {
    forall id :: id in before ==> id in after && LaterThan(before[id], after[id])
  }

  lemma {:induction false} LogOneMore(log: seq<Event>, e: Event, id: int)
    ensures Consumptions(log + [e], id) == Consumptions(log, id) + if e.Consumed? && e.id == id then 1 else 0
    ensures Releases(log + [e], id) == Releases(log, id) + if e.HoldReleased? && e.id == id then 1 else 0
  {
    assert (log + [e])[..|log|] == log;
  }

  lemma {:induction false} LogBatch(log: seq<Event>, ids: seq<int>, id: int)
    requires BatchExpiry.Distinct(ids)
    ensures Consumptions(log + ReleaseEvents(ids), id) == Consumptions(log, id)
    ensures Releases(log + ReleaseEvents(ids), id) == Releases(log, id) + if id in ids then 1 else 0
    decreases |ids|
  {
    if ids == [] {
      assert log + ReleaseEvents(ids) == log;
    } else {
      var front, last := ids[..|ids| - 1], ids[|ids| - 1];
      LogBatch(log, front, id);
      assert log + ReleaseEvents(ids) == (log + ReleaseEvents(front)) + [HoldReleased(last)];
      LogOneMore(log + ReleaseEvents(front), HoldReleased(last), id);
      assert last !in front;
    }
  }

  /** The effect of a committed step on reservations and orders. */
  lemma {:induction false} CommitMovesOn(s: Sys, step: Step)
    requires CallsCurrent(s) && Commit(s, step).Some?
    ensures Frozen(s.t.reservations, Commit(s, step).value.reservations)
    ensures OrdersMoveOn(s.t.orders, Commit(s, step).value.orders)
  {
  }

  lemma {:induction false} LaterAgain(a: Order, b: Order, c: Order)
    requires LaterThan(a, b) && LaterThan(b, c)
    ensures LaterThan(a, c)
  {
  }

  lemma {:induction false} CallStaysCurrent(t: Tables, out: Tables, c: Call)
    requires CallCurrent(t, c) && Frozen(t.reservations, out.reservations) && OrdersMoveOn(t.orders, out.orders)
    ensures CallCurrent(out, c)
  {
    match c
    case ItemCancel(_, orderId, _, read) => LaterAgain(read, t.orders[orderId], out.orders[orderId]);
    case Ship(orderId, read) => LaterAgain(read, t.orders[orderId], out.orders[orderId]);
    case _ =>
  }

  lemma {:induction false} CallsStayCurrent(s: Sys, step: Step)
    requires CallsCurrent(s)
    ensures CallsCurrent(Next(s, step))
    ensures Frozen(s.t.reservations, Next(s, step).t.reservations)
    ensures OrdersMoveOn(s.t.orders, Next(s, step).t.orders)
  {
    var out := Next(s, step);
    if Commit(s, step).Some? {
      CommitMovesOn(s, step);
    }
    forall c | c in out.calls
      ensures CallCurrent(out.t, out.calls[c])
    {
      if c in s.calls {
        CallStaysCurrent(s.t, out.t, s.calls[c]);
      } else {
        assert out.t == s.t;
      }
    }
  }

  lemma {:induction false} CheckoutIsLogged(s: Sys, step: Step, id: int)
    requires CallsCurrent(s) && Lifecycle(s.t.reservations, s.log, id)
    requires step.CommitCheckout? && Commit(s, step).Some?
    ensures Lifecycle(Next(s, step).t.reservations, Next(s, step).log, id)
  {
    LogOneMore(s.log, Consumed(s.calls[step.call].id, step.newOrderId), id);
  }

  lemma {:induction false} ReleaseIsLogged(s: Sys, step: Step, id: int)
    requires CallsCurrent(s) && Lifecycle(s.t.reservations, s.log, id)
    requires step.FinishRelease? && Commit(s, step).Some?
    ensures Lifecycle(Next(s, step).t.reservations, Next(s, step).log, id)
  {
    assert s.log + [] == s.log;
    LogOneMore(s.log, HoldReleased(s.calls[step.call].id), id);
  }

  lemma {:induction false} ExpiryIsLogged(s: Sys, step: Step, id: int)
    requires Lifecycle(s.t.reservations, s.log, id)
    requires step.ExpiryCron? && Commit(s, step).Some?
    ensures Lifecycle(Next(s, step).t.reservations, Next(s, step).log, id)
  {
    LogBatch(s.log, step.ids, id);
  }

  /** The other transactions leave the status of every reservation alone; a new one is ACTIVE. */
  lemma {:induction false} OthersLogNothing(s: Sys, step: Step, id: int)
    requires Lifecycle(s.t.reservations, s.log, id)
    requires Commit(s, step).None? || !(step.CommitCheckout? || step.FinishRelease? || step.ExpiryCron?)
    ensures Lifecycle(Next(s, step).t.reservations, Next(s, step).log, id)
  {
    assert s.log + [] == s.log;
  }

  lemma {:induction false} LogMatches(s: Sys, step: Step, id: int)
    requires CallsCurrent(s) && Lifecycle(s.t.reservations, s.log, id)
    ensures Lifecycle(Next(s, step).t.reservations, Next(s, step).log, id)
  {
    if Commit(s, step).None? || !(step.CommitCheckout? || step.FinishRelease? || step.ExpiryCron?) {
      OthersLogNothing(s, step, id);
    } else if step.CommitCheckout? {
      CheckoutIsLogged(s, step, id);
    } else if step.FinishRelease? {
      ReleaseIsLogged(s, step, id);
    } else {
      ExpiryIsLogged(s, step, id);
    }
  }

  /** Units of a variant that a step brings into the shop. */
  ghost function Received(s: Sys, step: Step, v: int): int {
    if Commit(s, step).None? then 0
    else
      match step
      case Restocking(w, qty) => if w == v && qty > 0 then qty else 0
      case GuestCheckout(_, items, _) => Backordered(items, v)
      case _ => 0
  }

  lemma {:induction false} StepSupplies(s: Sys, step: Step, v: int)
    requires Keyed(s.t.inv)
    ensures Supplied(s.t.inv, Next(s, step).t.inv, v, Received(s, step, v))
  {
    if Commit(s, step).Some? {
      match step
      case Reserving(_, _, cart, _, _) => ReserveLinesSupplies(s.t.inv, CartLines(cart), v);
      case FinishRelease(call) => ReleaseHoldsSupplies(s.t.inv, s.calls[call].items, v);
      case ExpiryCron(_, _, ids) => BatchExpireSupplies(s.t, ids, v);
      case GuestCheckout(_, items, _) => ReserveItemsSupplies(s.t.inv, items, v);
      case Cancelling(_, orderId) => ReleaseLinesSupplies(s.t.inv, ActiveLines(s.t.orders[orderId].items), v);
      case CommitShip(call) =>
        if PreShipment(s.calls[call].read.status) {
          CommitLinesSupplies(s.t.inv, ActiveLines(s.calls[call].read.items), v);
        }
      case Restocking(w, qty) => RestockSupplies(s.t.inv, w, qty, v);
      case _ =>
    }
  }

  lemma {:induction false} StepConsistent(s: Sys, step: Step)
    requires Consistent(s)
    ensures Consistent(Next(s, step))
    ensures Frozen(s.t.reservations, Next(s, step).t.reservations)
    ensures OrdersMoveOn(s.t.orders, Next(s, step).t.orders)
  {
    CallsStayCurrent(s, step);
    StepSupplies(s, step, 0);
    forall id ensures Lifecycle(Next(s, step).t.reservations, Next(s, step).log, id) {
      LogMatches(s, step, id);
    }
  }

  // ---------- Runs ----------

  lemma {:induction false} SoundChecks(inv: Inventory)
    requires Sound(inv)
    ensures Keyed(inv) && ChecksHold(inv)
  {
    forall v | v in inv.variants
      ensures 0 <= inv.variants[v].reservedStock <= inv.variants[v].stock
    {
      CacheWithinBounds(inv, v);
    }
  }

  /** Units of a variant that a run brings into the shop. */
  ghost function TotalReceived(s: Sys, steps: seq<Step>, v: int): int {
    if steps == [] then 0
    else
      TotalReceived(s, steps[..|steps| - 1], v) + Received(Run(s, steps[..|steps| - 1]), steps[|steps| - 1], v)
  }

  /** In every run, callers that read early included, what they read has only moved on when they commit. */
  lemma {:induction false} RunConsistent(s: Sys, steps: seq<Step>)
    requires Init(s)
    ensures Consistent(Run(s, steps))
    decreases |steps|
  {
    if steps == [] {
      SoundChecks(s.t.inv);
    } else {
      RunConsistent(s, steps[..|steps| - 1]);
      StepConsistent(Run(s, steps[..|steps| - 1]), steps[|steps| - 1]);
    }
  }

  /** Stock plus sold units move only with restocks and backorders, in every run. */
  lemma {:induction false} SupplyIsConserved(s: Sys, steps: seq<Step>, v: int)
    requires Init(s)
    ensures InventoryMoves.Supply(Run(s, steps).t.inv, v)
         == InventoryMoves.Supply(s.t.inv, v) + TotalReceived(s, steps, v)
    decreases |steps|
  {
    if steps != [] {
      SupplyIsConserved(s, steps[..|steps| - 1], v);
      RunConsistent(s, steps[..|steps| - 1]);
      StepSupplies(Run(s, steps[..|steps| - 1]), steps[|steps| - 1], v);
    }
  }

  /** Whatever the interleaving of checkouts, releases and expiry, a reservation leaves ACTIVE at most once: it backs
      at most one order, gives its units back at most once, and never does both. */
  lemma {:induction false} ReservationsLeaveOnce(s: Sys, steps: seq<Step>, id: int)
    requires Init(s)
    ensures Consumptions(Run(s, steps).log, id) + Releases(Run(s, steps).log, id) <= 1
    ensures id in Run(s, steps).t.reservations ==>
              && (Run(s, steps).t.reservations[id].status.ACTIVE? <==>
                  Consumptions(Run(s, steps).log, id) + Releases(Run(s, steps).log, id) == 0)
              && (Run(s, steps).t.reservations[id].status.CONSUMED? <==> Consumptions(Run(s, steps).log, id) == 1)
              && (Run(s, steps).t.reservations[id].status.EXPIRED? <==> Releases(Run(s, steps).log, id) == 1)
  {
    RunConsistent(s, steps);
    assert Lifecycle(Run(s, steps).t.reservations, Run(s, steps).log, id);
  }
}
