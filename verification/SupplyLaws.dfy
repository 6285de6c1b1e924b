/** Units on hand plus units sold: which transactions change them, whatever else the tables hold. */
module SupplyLaws {
  import opened Schema
  import opened InventoryMoves
  import opened Reservations
  import opened Orders
  import opened Accounting

  /** The foreign key of WarehouseInventory, and nothing about its numbers. */
  ghost predicate Keyed(inv: Inventory) {
    forall k :: k in inv.rows ==> k.variantId in inv.variants
  }

  /** The variants are the same, and the supply of each grew by the given units. */
  ghost predicate Supplied(before: Inventory, after: Inventory, v: int, units: int) {
    && Keyed(after) && after.variants.Keys == before.variants.Keys
    && InventoryMoves.Supply(after, v) == InventoryMoves.Supply(before, v) + units
  }

  lemma {:induction false} ReserveSupplies(inv: Inventory, w: int, qty: int, allowBackorder: bool, v: int)
    requires Keyed(inv) && Reserve(inv, w, qty, allowBackorder).Some?
    ensures Supplied(inv, Reserve(inv, w, qty, allowBackorder).value, v, if allowBackorder && w == v then qty else 0)
  {
  }

  lemma {:induction false} ReserveLinesSupplies(inv: Inventory, lines: seq<Line>, v: int)
    requires Keyed(inv) && ReserveLines(inv, lines).Some?
    ensures Supplied(inv, ReserveLines(inv, lines).value, v, 0)
    decreases |lines|
  {
    if lines != [] {
      ReserveLinesSupplies(inv, lines[..|lines| - 1], v);
    }
  }

  lemma {:induction false} ReserveItemsSupplies(inv: Inventory, items: seq<GuestItem>, v: int)
    requires Keyed(inv) && ReserveItems(inv, items).Some?
    ensures Supplied(inv, ReserveItems(inv, items).value, v, Backordered(items, v))
    decreases |items|
  {
    if items != [] {
      var front, last := items[..|items| - 1], items[|items| - 1];
      ReserveItemsSupplies(inv, front, v);
      ReserveSupplies(ReserveItems(inv, front).value, last.variantId, last.quantity, last.allowBackorder, v);
    }
  }

  lemma {:induction false} ReleaseHoldsSupplies(inv: Inventory, lines: seq<Line>, v: int)
    requires Keyed(inv)
    ensures Supplied(inv, ReleaseHolds(inv, lines), v, 0)
    decreases |lines|
  {
    if lines != [] {
      ReleaseHoldsSupplies(inv, lines[..|lines| - 1], v);
    }
  }

  lemma {:induction false} ReleaseLinesSupplies(inv: Inventory, lines: seq<Line>, v: int)
    requires Keyed(inv)
    ensures Supplied(inv, ReleaseLines(inv, lines), v, 0)
    decreases |lines|
  {
    if lines != [] {
      ReleaseLinesSupplies(inv, lines[..|lines| - 1], v);
    }
  }

  lemma {:induction false} CommitLinesSupplies(inv: Inventory, lines: seq<Line>, v: int)
    requires Keyed(inv) && CommitLines(inv, lines).Some?
    ensures Supplied(inv, CommitLines(inv, lines).value, v, 0)
    decreases |lines|
  {
    if lines != [] {
      CommitLinesSupplies(inv, lines[..|lines| - 1], v);
    }
  }

  lemma {:induction false} RestockSupplies(inv: Inventory, w: int, qty: int, v: int)
    requires Keyed(inv) && Restock(inv, w, qty).Some?
    ensures Supplied(inv, Restock(inv, w, qty).value, v, if w == v && qty > 0 then qty else 0)
  {
  }

  lemma {:induction false} BatchExpireSupplies(t: Tables, ids: seq<int>, v: int)
    requires Keyed(t.inv)
    ensures Supplied(t.inv, BatchExpire(t, ids).inv, v, 0)
  {
  }
}
