/** When the accounts survive a run of the store: exactly as long as every transaction that acts on an order read
    earlier meets the condition that StaleReads gives for it. */
module StoreAccounts {
  import opened Schema
  import opened InventoryMoves
  import opened Reservations
  import opened Orders
  import opened Accounting
  import opened StaleReads
  import opened StoreMachine

  /** The condition of one step, on the tables as they are when it commits. */
  ghost predicate Fits(s: Sys, step: Step) {
    match step
    case CommitItemCancel(call) =>
      Attempt(s, step).Some? ==>
        var c := s.calls[call];
        || StillHeld(s.t.orders[c.orderId], c.index)
        || (NoneReserved(s.t.inv, c.read.items[c.index].variantId) && !Revives(s.t.orders[c.orderId], c.read, c.index))
    case CommitShip(call) =>
      Attempt(s, step).Some? ==>
        forall v :: OrderUnits(s.t.orders[s.calls[call].orderId], v) == OrderUnits(s.calls[call].read, v)
    case _ => true
  }

  // ---------- One step ----------

  lemma {:induction false} ReleaseKeepsChecks(inv: Inventory, v: int, qty: int)
    requires ChecksHold(inv) && qty > 0
    ensures ChecksHold(Release(inv, v, qty))
  {
  }

  lemma {:induction false} ReadItemsPositive(t: Tables, orderId: int, read: Order)
    requires Accounted(t) && orderId in t.orders && LaterThan(read, t.orders[orderId])
    ensures PositiveItems(read.items)
  {
    forall i | 0 <= i < |read.items| ensures read.items[i].quantity > 0 {
      assert t.orders[orderId].items[i].quantity > 0;
    }
  }

  lemma {:induction false} ShipKeepsChecks(t: Tables, orderId: int, read: Order)
    requires Accounted(t) && orderId in t.orders && LaterThan(read, t.orders[orderId])
    requires ShipOrder(t, orderId, read).Some?
    ensures ChecksHold(ShipOrder(t, orderId, read).value.inv)
  {
    SoundChecks(t.inv);
    if PreShipment(read.status) {
      ReadItemsPositive(t, orderId, read);
      ShippedInventory(t.inv, read);
      SoundChecks(ShipOrder(t, orderId, read).value.inv);
    }
  }

  /** Steps that read and write in one transaction, or act on reservations: they keep the accounts. */
  predicate ActsAtOnce(step: Step) {
    !step.CommitItemCancel? && !step.CommitShip?
  }

  lemma {:induction false} AttemptKeepsAccounts(s: Sys, step: Step)
    requires Consistent(s) && Accounted(s.t) && ActsAtOnce(step) && Attempt(s, step).Some?
    ensures Accounted(Attempt(s, step).value)
  {
    match step
    case Reserving(id, userId, cart, expiresAt, isFlash) =>
      CreateReservationKeeps(s.t, id, userId, cart, expiresAt, isFlash);
    case CommitCheckout(call, orderId, couponOk) =>
      PlaceOrderKeeps(s.t, orderId, s.calls[call].userId, s.calls[call].id, couponOk);
    case FinishRelease(call) =>
      CommitReleaseKeeps(s.t, s.calls[call].id);
    case ExpiryCron(_, _, ids) =>
      BatchExpireKeeps(s.t, ids);
    case GuestCheckout(orderId, items, couponOk) =>
      PlaceGuestOrderKeeps(s.t, orderId, items, couponOk);
    case Cancelling(userId, orderId) =>
      CancelOrderKeeps(s.t, userId, orderId);
    case Moving(orderId, status) =>
      SetStatusKeeps(s.t, orderId, status);
    case Restocking(v, qty) =>
      RestockKeeps(s.t, v, qty);
    case _ =>
  }

  /** As long as the accounts hold, no transaction violates a CHECK constraint: none throws for that reason. */
  lemma {:induction false} ChecksNeverThrow(s: Sys, step: Step)
    requires Consistent(s) && Accounted(s.t)
    ensures Commit(s, step) == Attempt(s, step)
  {
    if Attempt(s, step).Some? {
      if ActsAtOnce(step) {
        AttemptKeepsAccounts(s, step);
        SoundChecks(Attempt(s, step).value.inv);
      } else if step.CommitItemCancel? {
        var c := s.calls[step.call];
        assert c.read.items[c.index].quantity == s.t.orders[c.orderId].items[c.index].quantity > 0;
        ReleaseKeepsChecks(s.t.inv, c.read.items[c.index].variantId, c.read.items[c.index].quantity);
      } else {
        ShipKeepsChecks(s.t, s.calls[step.call].orderId, s.calls[step.call].read);
      }
    }
  }

  /** A step keeps the accounts exactly if it fits. */
  lemma {:induction false} StepAccountedIff(s: Sys, step: Step)
    requires Consistent(s) && Accounted(s.t)
    ensures Accounted(Next(s, step).t) <==> Fits(s, step)
  {
    ChecksNeverThrow(s, step);
    if Attempt(s, step).Some? {
      if ActsAtOnce(step) {
        AttemptKeepsAccounts(s, step);
      } else if step.CommitItemCancel? {
        var c := s.calls[step.call];
        CancelItemAfterChange(s.t, c.userId, c.orderId, c.index, c.read);
      } else {
        ShipAfterChange(s.t, s.calls[step.call].orderId, s.calls[step.call].read);
      }
    }
  }

  // ---------- Runs ----------

  ghost predicate AllFit(s: Sys, steps: seq<Step>) {
    steps == [] || (AllFit(s, steps[..|steps| - 1]) && Fits(Run(s, steps[..|steps| - 1]), steps[|steps| - 1]))
  }

  /** The accounts hold in every state that the run passes through. */
  ghost predicate AlwaysAccounted(s: Sys, steps: seq<Step>) {
    Accounted(Run(s, steps).t) && (steps == [] || AlwaysAccounted(s, steps[..|steps| - 1]))
  }

  lemma {:induction false} InitAccounted(s: Sys)
    requires Init(s)
    ensures Accounted(s.t)
  {
    forall v ensures Reserved(s.t.inv, At(v)) == Held(s.t, v) {
      assert Reserved(s.t.inv, At(v)) == 0;
    }
  }

  /** The accounts hold all along a run exactly if every stale commit in it fits. */
  lemma {:induction false} AccountsHoldIff(s: Sys, steps: seq<Step>)
    requires Init(s)
    ensures AlwaysAccounted(s, steps) <==> AllFit(s, steps)
    decreases |steps|
  {
    if steps == [] {
      InitAccounted(s);
    } else {
      var front, last := steps[..|steps| - 1], steps[|steps| - 1];
      AccountsHoldIff(s, front);
      if AlwaysAccounted(s, front) {
        RunConsistent(s, front);
        StepAccountedIff(Run(s, front), last);
      }
    }
  }

  /** A commit on an order that did not change since it was read fits. */
  lemma {:induction false} UnchangedReadsFit(s: Sys, step: Step)
    requires step.CommitItemCancel? || step.CommitShip? ==>
               step.call in s.calls && (s.calls[step.call].ItemCancel? || s.calls[step.call].Ship?) ==>
                 s.calls[step.call].orderId in s.t.orders
                 && s.t.orders[s.calls[step.call].orderId] == s.calls[step.call].read
    ensures Fits(s, step)
  {
  }

  /** I-1 and I-2 in every state that is reached with fitting commits: reserved units are exactly the held ones, rows
      are within their CHECK constraints, and so is the cache, which is the sum over the warehouses. */
  lemma {:induction false} ReachableInventory(s: Sys, steps: seq<Step>)
    requires Init(s) && AllFit(s, steps)
    ensures forall v :: Reserved(Run(s, steps).t.inv, At(v)) == Held(Run(s, steps).t, v)
    ensures forall k :: 0 <= Reserved(Run(s, steps).t.inv, k) <= Stock(Run(s, steps).t.inv, k)
    ensures forall v :: v in Run(s, steps).t.inv.variants ==>
              && Cached(Run(s, steps).t.inv, v)
              && 0 <= Run(s, steps).t.inv.variants[v].reservedStock <= Run(s, steps).t.inv.variants[v].stock
  {
    AccountsHoldIff(s, steps);
    SoundChecks(Run(s, steps).t.inv);
  }

  /** A placed order can always ship: shipping any pre-shipment order, as it is, succeeds and violates no CHECK. */
  lemma {:induction false} PlacedOrdersCanShip(s: Sys, steps: seq<Step>, orderId: int)
    requires Init(s) && AllFit(s, steps)
    requires orderId in Run(s, steps).t.orders && PreShipment(Run(s, steps).t.orders[orderId].status)
    ensures var t := Run(s, steps).t;
            && CommitLines(t.inv, ActiveLines(t.orders[orderId].items)).Some?
            && ShipOrder(t, orderId, t.orders[orderId]).Some?
            && ChecksHold(ShipOrder(t, orderId, t.orders[orderId]).value.inv)
  {
    AccountsHoldIff(s, steps);
    ShipOrderKeeps(Run(s, steps).t, orderId);
    SoundChecks(ShipOrder(Run(s, steps).t, orderId, Run(s, steps).t.orders[orderId]).value.inv);
  }

  /** None of the clamped updates of a step has a negative argument. A stale item cancellation is the only step that may
      meet one: when its item is no longer held. */
  ghost predicate MeetsNoClamp(s: Sys, step: Step) {
    match step
    case FinishRelease(call) =>
      call in s.calls && s.calls[call].Releasing? && s.calls[call].id in s.t.reservations
      && s.t.reservations[s.calls[call].id].status.ACTIVE? ==>
        ClampFree(s.t.inv, s.calls[call].items)
    case ExpiryCron(now, locked, ids) =>
      Selected(s.t.reservations, now, locked, ids) ==> BatchClampFree(s.t, ids)
    case Cancelling(userId, orderId) =>
      CancelOrder(s.t, userId, orderId).Some? ==> ClampFree(s.t.inv, ActiveLines(s.t.orders[orderId].items))
    case CommitItemCancel(call) =>
      Attempt(s, step).Some? && StillHeld(s.t.orders[s.calls[call].orderId], s.calls[call].index) ==>
        var item := s.t.orders[s.calls[call].orderId].items[s.calls[call].index];
        ClampFree(s.t.inv, [Line(DEFAULT_WAREHOUSE, item.variantId, item.quantity)])
    case _ => true
  }

  /** GREATEST(0, ...) never changes a result in any state that is reached with fitting commits. */
  lemma {:induction false} ClampsAreNeverMet(s: Sys, steps: seq<Step>, step: Step)
    requires Init(s) && AllFit(s, steps)
    ensures MeetsNoClamp(Run(s, steps), step)
  {
    AccountsHoldIff(s, steps);
    RunConsistent(s, steps);
    var r := Run(s, steps);
    match step
    case FinishRelease(call) =>
      if call in r.calls && r.calls[call].Releasing? {
        CommitReleaseKeeps(r.t, r.calls[call].id);
      }
    case ExpiryCron(_, _, ids) =>
      if Selected(r.t.reservations, step.now, step.locked, ids) {
        BatchMeetsNoClamp(r.t, ids);
      }
    case Cancelling(userId, orderId) =>
      if CancelOrder(r.t, userId, orderId).Some? {
        CancelOrderKeeps(r.t, userId, orderId);
      }
    case CommitItemCancel(call) =>
      if Attempt(r, step).Some? && StillHeld(r.t.orders[r.calls[call].orderId], r.calls[call].index) {
        ReleaseOfHeldItem(r.t, r.calls[call].orderId, r.calls[call].index);
      }
    case _ =>
  }
}
