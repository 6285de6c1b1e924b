/** WarehouseService.createShipment, and why the shipments of a routed order can all be reserved. */
module Shipping {
  import opened Sums
  import opened Schema
  import opened Routing
  import M = InventoryMoves

  // ---------- One shipment ----------

  /** syncVariantCache: the cache columns become the sums over all warehouses. */
  ghost function Synced(inv: Inventory, v: int): Inventory {
    if v !in inv.variants then inv
    else
      var stock, reserved := SumRows(inv.rows, M.StockOf(v)), SumRows(inv.rows, M.ReservedOf(v));
      inv.(variants := inv.variants[v := Variant(stock, reserved, inv.variants[v].soldCount)])
  }

  /** Reserving one line: a missing row is silently skipped, more than is in stock violates the CHECK. */
  ghost function ShipLine(inv: Inventory, line: Line): Option<Inventory> {
    var k := line.AtKey();
    if k !in inv.rows then Some(Synced(inv, line.variantId))
    else
      var row := inv.rows[k].(reserved := inv.rows[k].reserved + line.quantity);
      if 0 <= row.reserved <= row.stock then Some(Synced(inv.(rows := inv.rows[k := row]), line.variantId)) else None
  }

  ghost function ShipLines(inv: Inventory, lines: seq<Line>): Option<Inventory> {
    if lines == [] then Some(inv)
    else
      match ShipLines(inv, lines[..|lines| - 1])
      case None => None
      case Some(i) => ShipLine(i, lines[|lines| - 1])
  }

  function LinesOf(s: Shipment): seq<Line> {
    seq(|s.items|, i requires 0 <= i < |s.items| => Line(s.warehouseId, s.items[i].variantId, s.items[i].quantity))
  }

  function AllLines(list: seq<Shipment>): seq<Line> {
    if list == [] then [] else LinesOf(list[0]) + AllLines(list[1..])
  }

  /** The loop of syncVariantCache over the rows of one variant. */
  method SyncVariantCache(tx: Database, v: int)
    modifies tx`variants
    ensures tx.Inv() == Synced(old(tx.Inv()), v)
  {
    var stock, reserved, todo := 0, 0, tx.rows;
    while todo != map[]
      invariant tx.variants == old(tx.variants)
      invariant todo.Keys <= tx.rows.Keys && forall k :: k in todo ==> todo[k] == tx.rows[k]
      invariant stock + SumRows(todo, M.StockOf(v)) == SumRows(tx.rows, M.StockOf(v))
      invariant reserved + SumRows(todo, M.ReservedOf(v)) == SumRows(tx.rows, M.ReservedOf(v))
      decreases |todo|
    {
      var k :| k in todo;
      SumRowsTakeOut(todo, M.StockOf(v), k);
      SumRowsTakeOut(todo, M.ReservedOf(v), k);
      if k.variantId == v {
        stock, reserved := stock + todo[k].stock, reserved + todo[k].reserved;
      }
      todo := todo - {k};
    }
    assert SumRows(todo, M.StockOf(v)) == 0 && SumRows(todo, M.ReservedOf(v)) == 0;
    if v in tx.variants {
      tx.variants := tx.variants[v := Variant(stock, reserved, tx.variants[v].soldCount)];
    }
  }

  /** Its own transaction: a violated CHECK undoes the lines before it. */
  method CreateShipment(db: Database, s: Shipment) returns (ok: bool)
    modifies db
    ensures ok <==> ShipLines(old(db.Inv()), LinesOf(s)).Some?
    ensures db.Inv() == if ok then ShipLines(old(db.Inv()), LinesOf(s)).value else old(db.Inv())
    ensures db.reservations == old(db.reservations) && db.orders == old(db.orders)
  {
    var saved, lines := db.Contents(), LinesOf(s);
    var i := 0;
    while i < |lines|
      invariant i <= |lines| && ShipLines(saved.inv, lines[..i]) == Some(db.Inv())
      invariant db.reservations == old(db.reservations) && db.orders == old(db.orders)
    {
      assert lines[..i + 1][..i] == lines[..i];
      var k := lines[i].AtKey();
      if k in db.rows {
        var row := db.rows[k].(reserved := db.rows[k].reserved + lines[i].quantity);
        if !(0 <= row.reserved <= row.stock) {
          FailureIsFinal(saved.inv, lines, i + 1);
          db.Rollback(saved);
          return false;
        }
        db.rows := db.rows[k := row];
      }
      SyncVariantCache(db, lines[i].variantId);
      i := i + 1;
    }
    assert lines[..i] == lines;
    ok := true;
  }

  lemma {:induction false} FailureIsFinal(inv: Inventory, lines: seq<Line>, n: nat)
    requires n <= |lines| && ShipLines(inv, lines[..n]).None?
    ensures ShipLines(inv, lines).None?
    decreases |lines|
  {
    if n == |lines| {
      assert lines[..n] == lines;
    } else {
      var front := lines[..|lines| - 1];
      assert front[..n] == lines[..n];
      FailureIsFinal(inv, front, n);
    }
  }

  // ---------- Recomputing the cache is writing it through ----------

  lemma {:induction false} SyncCompletesMove(inv: Inventory, moved: Inventory, line: Line)
    requires moved == M.MoveLine(inv, line, M.Keep, M.Gain) && M.Sound(moved) && line.AtKey() in inv.rows
    ensures Synced(inv.(rows := moved.rows), line.variantId) == moved
  {
    assert line.AtKey() in moved.rows && line.variantId in moved.variants;
    assert M.Cached(moved, line.variantId);
    assert line.variantId in inv.variants;
  }

  lemma {:induction false} ShipLineIsMove(inv: Inventory, line: Line)
    requires M.Sound(inv) && line.AtKey() in inv.rows && line.quantity > 0
    ensures ShipLine(inv, line)
         == if line.quantity <= M.Stock(inv, line.AtKey()) - M.Reserved(inv, line.AtKey())
            then Some(M.MoveLine(inv, line, M.Keep, M.Gain)) else None
  {
    var k, moved := line.AtKey(), M.MoveLine(inv, line, M.Keep, M.Gain);
    if line.quantity <= M.Stock(inv, k) - M.Reserved(inv, k) {
      M.MoveLineKeepsSound(inv, line, M.Keep, M.Gain);
      SyncCompletesMove(inv, moved, line);
      assert moved.rows == inv.rows[k := inv.rows[k].(reserved := inv.rows[k].reserved + line.quantity)];
    }
  }

  /** On sound tables, recomputing the sums does what InventoryService does with increments. */
  lemma {:induction false} SyncIsWriteThrough(inv: Inventory, line: Line)
    requires M.Sound(inv) && line.AtKey() in inv.rows && line.quantity > 0
    ensures ShipLine(inv, line) == M.ReserveLine(inv, line)
  {
    M.ReserveLineIsMove(inv, line);
    ShipLineIsMove(inv, line);
  }

  predicate Stocked(inv: Inventory, lines: seq<Line>) {
    forall i :: 0 <= i < |lines| ==> lines[i].AtKey() in inv.rows && lines[i].quantity > 0
  }

  lemma {:induction false} ReservedRowsStay(inv: Inventory, lines: seq<Line>)
    requires M.ReserveLines(inv, lines).Some?
    ensures inv.rows.Keys <= M.ReserveLines(inv, lines).value.rows.Keys
    decreases |lines|
  {
    if lines != [] {
      ReservedRowsStay(inv, lines[..|lines| - 1]);
    }
  }

  lemma {:induction false} ShippingIsReserving(inv: Inventory, lines: seq<Line>)
    requires M.Sound(inv) && Stocked(inv, lines)
    ensures ShipLines(inv, lines) == M.ReserveLines(inv, lines)
    decreases |lines|
  {
    if lines != [] {
      var front := lines[..|lines| - 1];
      ShippingIsReserving(inv, front);
      M.ReserveLinesCorrect(inv, front);
      if M.ReserveLines(inv, front).Some? {
        ReservedRowsStay(inv, front);
        SyncIsWriteThrough(M.ReserveLines(inv, front).value, lines[|lines| - 1]);
      }
    }
  }

  /** Lines can all be shipped exactly if, at every warehouse, all lines of a variant together fit its availability;
      then exactly those units are reserved, within the bounds of every row and with an exact cache. */
  lemma {:induction false} ShippableIff(inv: Inventory, lines: seq<Line>)
    requires M.Sound(inv) && Stocked(inv, lines)
    ensures ShipLines(inv, lines).Some?
       <==> forall k :: M.QtyAt(lines, k) <= M.Stock(inv, k) - M.Reserved(inv, k)
    ensures ShipLines(inv, lines).Some? ==>
              && M.Sound(ShipLines(inv, lines).value)
              && M.Shifted(inv, ShipLines(inv, lines).value, lines, M.Keep, M.Gain)
  {
    ShippingIsReserving(inv, lines);
    M.ReserveLinesCorrect(inv, lines);
    forall i | 0 <= i < |lines|
      ensures lines[i].variantId in inv.variants
    {
      assert lines[i].AtKey() in inv.rows;
    }
  }

  // ---------- The shipments of a routed order ----------

  lemma {:induction false} QtyConcat(a: seq<Line>, b: seq<Line>, k: Key)
    ensures M.QtyAt(a + b, k) == M.QtyAt(a, k) + M.QtyAt(b, k)
    decreases |b|
  {
    if b == [] {
      assert a + b == a;
    } else {
      assert (a + b)[..|a + b| - 1] == a + b[..|b| - 1];
      QtyConcat(a, b[..|b| - 1], k);
    }
  }

  lemma {:induction false} OneLineQty(l: Line, k: Key)
    ensures M.QtyAt([l], k) == if l.AtKey() == k then l.quantity else 0
  {
    assert M.QtyAt([l][..0], k) == 0;
  }

  lemma {:induction false} AssignAdds(list: seq<Shipment>, line: Line, k: Key)
    ensures M.QtyAt(AllLines(Assign(list, line)), k) == M.QtyAt(AllLines(list) + [line], k)
    ensures forall l :: l in AllLines(Assign(list, line)) ==> l in AllLines(list) || l == line
  {
    var item, after := Item(line.variantId, line.quantity), Assign(list, line);
    QtyConcat(AllLines(list), [line], k);
    if list == [] {
      assert LinesOf(after[0]) == [line];
      assert AllLines(after) == [line] + AllLines(after[1..]) == [line];
    } else {
      var first, tail := LinesOf(list[0]), AllLines(list[1..]);
      QtyConcat(first, tail, k);
      if list[0].warehouseId == line.warehouseId {
        assert LinesOf(after[0]) == first + [line];
        assert after[1..] == list[1..];
        QtyConcat(first, [line], k);
        QtyConcat(first + [line], tail, k);
      } else {
        AssignAdds(list[1..], line, k);
        assert after[1..] == Assign(list[1..], line);
        QtyConcat(first, AllLines(after[1..]), k);
        QtyConcat(tail, [line], k);
      }
    }
  }

  /** Grouping by warehouse neither loses nor adds units. */
  lemma {:induction false} GroupingKeeps(lines: seq<Line>, k: Key)
    ensures M.QtyAt(AllLines(Grouped(lines)), k) == M.QtyAt(lines, k)
    ensures forall l :: l in AllLines(Grouped(lines)) ==> l in lines
    decreases |lines|
  {
    if lines != [] {
      var front, last := lines[..|lines| - 1], lines[|lines| - 1];
      GroupingKeeps(front, k);
      AssignAdds(Grouped(front), last, k);
      QtyConcat(AllLines(Grouped(front)), [last], k);
      OneLineQty(last, k);
    }
  }

  function AvailableAt(inv: Inventory, k: Key): nat {
    match Available(inv, k.warehouseId, k.variantId) case None => 0 case Some(n) => Least(n)
  }

  lemma {:induction false} TakesAtKey(inv: Inventory, ws: seq<int>, v: int, q: nat, k: Key)
    requires Distinct(ws)
    ensures 0 <= M.QtyAt(Takes(inv, ws, v, q).0, k) <= AvailableAt(inv, k)
    ensures k.variantId != v || k.warehouseId !in ws ==> M.QtyAt(Takes(inv, ws, v, q).0, k) == 0
  {
    if ws != [] && q > 0 {
      assert ws[0] !in ws[1..];
      var available := Available(inv, ws[0], v);
      if available.None? || available.value <= 0 {
        TakesAtKey(inv, ws[1..], v, q, k);
      } else {
        var take := if available.value <= q then available.value else q;
        TakesAtKey(inv, ws[1..], v, q - take, k);
        QtyConcat([Line(ws[0], v, take)], Takes(inv, ws[1..], v, q - take).0, k);
        OneLineQty(Line(ws[0], v, take), k);
      }
    }
  }

  predicate DistinctVariants(items: seq<Item>) {
    forall i, j :: 0 <= i < j < |items| ==> items[i].variantId != items[j].variantId
  }

  predicate Wants(items: seq<Item>, v: int) {
    exists i :: 0 <= i < |items| && items[i].variantId == v
  }

  lemma {:induction false} SplitIsStocked(inv: Inventory, ws: seq<int>, items: seq<Item>)
    requires Positive(items)
    ensures Stocked(inv, Split(inv, ws, items).0)
    decreases |items|
  {
    if items != [] {
      var front, item := items[..|items| - 1], items[|items| - 1];
      SplitIsStocked(inv, ws, front);
      TakesAddUp(inv, ws, item.variantId, item.quantity);
      var takes := Takes(inv, ws, item.variantId, item.quantity).0;
      forall i | 0 <= i < |takes|
        ensures takes[i].AtKey() in inv.rows && takes[i].quantity > 0
      {
        assert IsTake(inv, ws, item.variantId, takes[i]);
      }
    }
  }

  // ---------- Nothing is lost ----------

  function Units(lines: seq<Line>, v: int): int {
    if lines == [] then 0 else (if lines[0].variantId == v then lines[0].quantity else 0) + Units(lines[1..], v)
  }

  function Wanted(items: seq<Item>, v: int): int {
    if items == [] then 0
    else
      var last := items[|items| - 1];
      Wanted(items[..|items| - 1], v) + if last.variantId == v then last.quantity else 0
  }

  lemma {:induction false} UnitsConcat(a: seq<Line>, b: seq<Line>, v: int)
    ensures Units(a + b, v) == Units(a, v) + Units(b, v)
  {
    if a == [] {
      assert a + b == b;
    } else {
      assert (a + b)[1..] == a[1..] + b;
      UnitsConcat(a[1..], b, v);
    }
  }

  lemma {:induction false} UnitsOfOneVariant(lines: seq<Line>, v: int, u: int)
    requires forall l :: l in lines ==> l.variantId == v
    ensures Units(lines, u) == if u == v then Quantity(lines) else 0
  {
    if lines != [] {
      UnitsOfOneVariant(lines[1..], v, u);
    }
  }

  lemma {:induction false} AssignUnits(list: seq<Shipment>, line: Line, v: int)
    ensures Units(AllLines(Assign(list, line)), v) == Units(AllLines(list), v) + Units([line], v)
  {
    var after := Assign(list, line);
    if list == [] {
      assert LinesOf(after[0]) == [line];
      assert AllLines(after) == [line] + AllLines(after[1..]) == [line];
    } else {
      var first, tail := LinesOf(list[0]), AllLines(list[1..]);
      UnitsConcat(first, tail, v);
      if list[0].warehouseId == line.warehouseId {
        assert LinesOf(after[0]) == first + [line];
        assert after[1..] == list[1..];
        UnitsConcat(first, [line], v);
        UnitsConcat(first + [line], tail, v);
      } else {
        AssignUnits(list[1..], line, v);
        assert after[1..] == Assign(list[1..], line);
        UnitsConcat(first, AllLines(after[1..]), v);
      }
    }
  }

  lemma {:induction false} GroupingUnits(lines: seq<Line>, v: int)
    ensures Units(AllLines(Grouped(lines)), v) == Units(lines, v)
    decreases |lines|
  {
    if lines != [] {
      var front, last := lines[..|lines| - 1], lines[|lines| - 1];
      GroupingUnits(front, v);
      AssignUnits(Grouped(front), last, v);
      UnitsConcat(front, [last], v);
      assert front + [last] == lines;
    }
  }

  lemma {:induction false} SplitUnits(inv: Inventory, ws: seq<int>, items: seq<Item>, v: int)
    requires Positive(items) && Split(inv, ws, items).1.None?
    ensures Units(Split(inv, ws, items).0, v) == Wanted(items, v)
    decreases |items|
  {
    if items != [] {
      var front, item := items[..|items| - 1], items[|items| - 1];
      SplitUnits(inv, ws, front, v);
      var takes := Takes(inv, ws, item.variantId, item.quantity);
      TakesAddUp(inv, ws, item.variantId, item.quantity);
      UnitsOfOneVariant(takes.0, item.variantId, v);
      UnitsConcat(Split(inv, ws, front).0, takes.0, v);
    }
  }

  lemma {:induction false} SingleUnits(w: int, items: seq<Item>, v: int)
    ensures Units(LinesOf(Shipment(w, items)), v) == Wanted(items, v)
    decreases |items|
  {
    if items != [] {
      var n := |items| - 1;
      var lines, front := LinesOf(Shipment(w, items)), LinesOf(Shipment(w, items[..n]));
      SingleUnits(w, items[..n], v);
      assert lines == front + [lines[n]];
      UnitsConcat(front, [lines[n]], v);
    }
  }

  /** A routed order ships, per variant, exactly the units it contains, duplicates included. */
  lemma {:induction false} RoutedUnitsMatch(inv: Inventory, ws: seq<int>, items: seq<Item>, v: int)
    requires Positive(items) && Route(inv, ws, items).Shipments?
    ensures Units(AllLines(Route(inv, ws, items).list), v) == Wanted(items, v)
  {
    var list := Route(inv, ws, items).list;
    if FirstThatFits(inv, ws, items).Some? {
      assert AllLines(list) == LinesOf(list[0]) + AllLines(list[1..]) == LinesOf(list[0]);
      SingleUnits(list[0].warehouseId, items, v);
    } else {
      GroupingUnits(Split(inv, ws, items).0, v);
      SplitUnits(inv, ws, items, v);
    }
  }

  // ---------- Orders that contain a variant twice ----------

  function Count(items: seq<Item>, v: int): nat {
    if items == [] then 0
    else Count(items[..|items| - 1], v) + if items[|items| - 1].variantId == v then 1 else 0
  }

  /** The one warehouse that a repeated variant is taken from: the one that has the whole order, or in a split the first
      with any sellable units of it. None if there is no such warehouse. */
  function Source(inv: Inventory, ws: seq<int>, items: seq<Item>, v: int): Option<int> {
    if FirstThatFits(inv, ws, items).Some? then FirstThatFits(inv, ws, items) else FirstWith(inv, ws, v)
  }

  function FirstWith(inv: Inventory, ws: seq<int>, v: int): (r: Option<int>)
    ensures r.Some? ==> r.value in ws && AvailableAt(inv, Key(r.value, v)) > 0
    ensures r.None? ==> forall w :: w in ws ==> AvailableAt(inv, Key(w, v)) == 0
  {
    if ws == [] then None else if AvailableAt(inv, Key(ws[0], v)) > 0 then Some(ws[0]) else FirstWith(inv, ws[1..], v)
  }

  function Smaller(a: int, b: int): int {
    if a < b then a else b
  }

  /** The first warehouse gives each item of a variant what it can, as if the others were not there. */
  function FirstTakes(items: seq<Item>, v: int, available: int): int {
    if items == [] then 0
    else
      var last := items[|items| - 1];
      FirstTakes(items[..|items| - 1], v, available)
      + if last.variantId == v then Smaller(last.quantity, available) else 0
  }

  /** Two or more items overload the first warehouse exactly if together they want more than it has. */
  lemma {:induction false} FirstTakesShape(items: seq<Item>, v: int, available: int)
    requires Positive(items) && available > 0
    ensures Count(items, v) <= FirstTakes(items, v, available) <= Wanted(items, v)
    ensures FirstTakes(items, v, available) == Wanted(items, v)
            || FirstTakes(items, v, available) >= available + Count(items, v) - 1
    decreases |items|
  {
    if items != [] {
      FirstTakesShape(items[..|items| - 1], v, available);
    }
  }

  /** An item's takes at its first warehouse, and at every other one if the first has enough. */
  lemma {:induction false} TakesAtFirst(inv: Inventory, ws: seq<int>, v: int, q: nat, k: Key)
    requires Distinct(ws) && q > 0 && FirstWith(inv, ws, v).Some? && k.variantId == v
    ensures var first := FirstWith(inv, ws, v).value;
            var available := AvailableAt(inv, Key(first, v));
            && (k.warehouseId == first ==> M.QtyAt(Takes(inv, ws, v, q).0, k) == Smaller(q, available))
            && (k.warehouseId != first && q <= available ==> M.QtyAt(Takes(inv, ws, v, q).0, k) == 0)
  {
    assert ws[0] !in ws[1..];
    var available := Available(inv, ws[0], v);
    if available.None? || available.value <= 0 {
      TakesAtFirst(inv, ws[1..], v, q, k);
    } else {
      var take := if available.value <= q then available.value else q;
      TakesAtKey(inv, ws[1..], v, q - take, k);
      QtyConcat([Line(ws[0], v, take)], Takes(inv, ws[1..], v, q - take).0, k);
      OneLineQty(Line(ws[0], v, take), k);
    }
  }

  lemma {:induction false} SplitOneMore(inv: Inventory, ws: seq<int>, items: seq<Item>, k: Key)
    requires Distinct(ws) && Positive(items) && items != [] && Split(inv, ws, items).1.None?
    ensures var front, item := items[..|items| - 1], items[|items| - 1];
            && Split(inv, ws, front).1.None?
            && M.QtyAt(Split(inv, ws, items).0, k)
               == M.QtyAt(Split(inv, ws, front).0, k)
                  + if item.variantId == k.variantId then M.QtyAt(Takes(inv, ws, item.variantId, item.quantity).0, k)
                    else 0
  {
    var front, item := items[..|items| - 1], items[|items| - 1];
    QtyConcat(Split(inv, ws, front).0, Takes(inv, ws, item.variantId, item.quantity).0, k);
    TakesAtKey(inv, ws, item.variantId, item.quantity, k);
  }

  lemma {:induction false} SplitAtFirst(inv: Inventory, ws: seq<int>, items: seq<Item>, k: Key)
    requires Distinct(ws) && Positive(items) && Split(inv, ws, items).1.None?
    requires FirstWith(inv, ws, k.variantId).Some?
    ensures var first := FirstWith(inv, ws, k.variantId).value;
            var available := AvailableAt(inv, Key(first, k.variantId));
            && (k.warehouseId == first ==>
                  M.QtyAt(Split(inv, ws, items).0, k) == FirstTakes(items, k.variantId, available))
            && (k.warehouseId != first && Wanted(items, k.variantId) <= available ==>
                  M.QtyAt(Split(inv, ws, items).0, k) == 0)
    decreases |items|
  {
    if items != [] {
      var front, item := items[..|items| - 1], items[|items| - 1];
      SplitOneMore(inv, ws, items, k);
      SplitAtFirst(inv, ws, front, k);
      if item.variantId == k.variantId {
        TakesAtFirst(inv, ws, item.variantId, item.quantity, k);
        FirstTakesShape(front, k.variantId, AvailableAt(inv, Key(FirstWith(inv, ws, k.variantId).value, k.variantId)));
      }
    }
  }

  /** A variant that occurs at most once never asks a warehouse for more than it has. */
  lemma {:induction false} SplitOfOne(inv: Inventory, ws: seq<int>, items: seq<Item>, k: Key)
    requires Distinct(ws) && Positive(items) && Split(inv, ws, items).1.None?
    ensures Count(items, k.variantId) <= 1 ==> M.QtyAt(Split(inv, ws, items).0, k) <= AvailableAt(inv, k)
    ensures Count(items, k.variantId) == 0 ==> M.QtyAt(Split(inv, ws, items).0, k) == 0
    decreases |items|
  {
    if items != [] {
      SplitOneMore(inv, ws, items, k);
      SplitOfOne(inv, ws, items[..|items| - 1], k);
      TakesAtKey(inv, ws, items[|items| - 1].variantId, items[|items| - 1].quantity, k);
    }
  }

  /** If a variant occurs more than once, it fits, all its items together, in its one warehouse. */
  predicate RepeatFits(inv: Inventory, ws: seq<int>, items: seq<Item>, v: int) {
    Count(items, v) > 1 ==>
      && Source(inv, ws, items, v).Some?
      && Wanted(items, v) <= AvailableAt(inv, Key(Source(inv, ws, items, v).value, v))
  }

  /** No warehouse is asked for more units of the variant than it has. */
  ghost predicate FitsEverywhere(inv: Inventory, lines: seq<Line>, v: int) {
    forall w :: M.QtyAt(lines, Key(w, v)) <= AvailableAt(inv, Key(w, v))
  }

  lemma {:induction false} CountedIsWanted(items: seq<Item>, v: int)
    ensures Count(items, v) > 0 <==> Wants(items, v)
    decreases |items|
  {
    if items != [] {
      var front := items[..|items| - 1];
      CountedIsWanted(front, v);
      assert forall i :: 0 <= i < |front| ==> front[i] == items[i];
      assert items[|items| - 1].variantId == v ==> Wants(items, v);
      if Wants(front, v) {
        var i :| 0 <= i < |front| && front[i].variantId == v;
        assert items[i].variantId == v;
      }
    }
  }

  lemma {:induction false} RoutedVariantHasStock(inv: Inventory, ws: seq<int>, items: seq<Item>, v: int)
    requires Positive(items) && Split(inv, ws, items).1.None? && Count(items, v) > 0
    ensures FirstWith(inv, ws, v).Some?
  {
    CountedIsWanted(items, v);
    SplitFailsIff(inv, ws, items);
    var i :| 0 <= i < |items| && items[i].variantId == v;
    assert !Hopeless(inv, ws, items[i]);
    if FirstWith(inv, ws, v).None? {
      NothingAvailable(inv, ws, v);
    }
  }

  lemma {:induction false} NothingAvailable(inv: Inventory, ws: seq<int>, v: int)
    requires forall w :: w in ws ==> AvailableAt(inv, Key(w, v)) == 0
    ensures TotalAvailable(inv, ws, v) == 0
  {
    if ws != [] {
      assert ws[0] in ws;
      NothingAvailable(inv, ws[1..], v);
    }
  }

  lemma {:induction false} SplitFitsIff(inv: Inventory, ws: seq<int>, items: seq<Item>, v: int)
    requires Distinct(ws) && Positive(items) && Split(inv, ws, items).1.None?
    ensures FitsEverywhere(inv, Split(inv, ws, items).0, v)
       <==> (Count(items, v) > 1 ==>
               && FirstWith(inv, ws, v).Some?
               && Wanted(items, v) <= AvailableAt(inv, Key(FirstWith(inv, ws, v).value, v)))
  {
    if Count(items, v) <= 1 {
      forall w ensures M.QtyAt(Split(inv, ws, items).0, Key(w, v)) <= AvailableAt(inv, Key(w, v)) {
        SplitOfOne(inv, ws, items, Key(w, v));
      }
    } else {
      RoutedVariantHasStock(inv, ws, items, v);
      var first := FirstWith(inv, ws, v).value;
      var available := AvailableAt(inv, Key(first, v));
      FirstTakesShape(items, v, available);
      SplitAtFirst(inv, ws, items, Key(first, v));
      forall w | Wanted(items, v) <= available
        ensures M.QtyAt(Split(inv, ws, items).0, Key(w, v)) <= AvailableAt(inv, Key(w, v))
      {
        SplitAtFirst(inv, ws, items, Key(w, v));
      }
    }
  }

  lemma {:induction false} SingleQty(w: int, items: seq<Item>, k: Key)
    ensures M.QtyAt(LinesOf(Shipment(w, items)), k) == if k.warehouseId == w then Wanted(items, k.variantId) else 0
    decreases |items|
  {
    if items != [] {
      var n := |items| - 1;
      SingleQty(w, items[..n], k);
      assert LinesOf(Shipment(w, items))[..n] == LinesOf(Shipment(w, items[..n]));
    }
  }

  /** One item of a variant is at most what a warehouse that has all items has. */
  lemma {:induction false} SingleOfOne(inv: Inventory, w: int, items: seq<Item>, v: int)
    requires Positive(items) && HasAll(inv, w, items) && Count(items, v) <= 1
    ensures Wanted(items, v) <= AvailableAt(inv, Key(w, v))
    ensures Count(items, v) == 0 ==> Wanted(items, v) == 0
    decreases |items|
  {
    if items != [] {
      var n := |items| - 1;
      assert items[..n][..] == items[..n] && forall i :: 0 <= i < n ==> items[..n][i] == items[i];
      SingleOfOne(inv, w, items[..n], v);
      assert Available(inv, w, items[n].variantId).Some?;
    }
  }

  lemma {:induction false} SingleFitsIff(inv: Inventory, w: int, items: seq<Item>, v: int)
    requires Positive(items) && HasAll(inv, w, items)
    ensures FitsEverywhere(inv, LinesOf(Shipment(w, items)), v)
       <==> (Count(items, v) > 1 ==> Wanted(items, v) <= AvailableAt(inv, Key(w, v)))
  {
    SingleQty(w, items, Key(w, v));
    forall x | x != w
      ensures M.QtyAt(LinesOf(Shipment(w, items)), Key(x, v)) == 0
    {
      SingleQty(w, items, Key(x, v));
    }
    if Count(items, v) <= 1 {
      SingleOfOne(inv, w, items, v);
    }
  }

  lemma {:induction false} RoutedIsStocked(inv: Inventory, ws: seq<int>, items: seq<Item>)
    requires Positive(items) && Route(inv, ws, items).Shipments?
    ensures Stocked(inv, AllLines(Route(inv, ws, items).list))
  {
    var list := Route(inv, ws, items).list;
    var lines := AllLines(list);
    var single := FirstThatFits(inv, ws, items);
    if single.Some? {
      assert lines == LinesOf(list[0]) + AllLines(list[1..]) == LinesOf(list[0]);
      forall i | 0 <= i < |lines|
        ensures lines[i].AtKey() in inv.rows && lines[i].quantity > 0
      {
        assert Available(inv, single.value, items[i].variantId).Some?;
      }
    } else {
      SplitIsStocked(inv, ws, items);
      GroupingKeeps(Split(inv, ws, items).0, Key(0, 0));
      assert forall i :: 0 <= i < |lines| ==> lines[i] in lines && lines[i] in Split(inv, ws, items).0;
    }
  }

  lemma {:induction false} RoutedFitsIff(inv: Inventory, ws: seq<int>, items: seq<Item>, v: int)
    requires Distinct(ws) && Positive(items) && Route(inv, ws, items).Shipments?
    ensures FitsEverywhere(inv, AllLines(Route(inv, ws, items).list), v) <==> RepeatFits(inv, ws, items, v)
  {
    var list := Route(inv, ws, items).list;
    var single := FirstThatFits(inv, ws, items);
    if single.Some? {
      assert AllLines(list) == LinesOf(list[0]) + AllLines(list[1..]) == LinesOf(list[0]);
      SingleFitsIff(inv, single.value, items, v);
    } else {
      forall w ensures M.QtyAt(AllLines(list), Key(w, v)) == M.QtyAt(Split(inv, ws, items).0, Key(w, v)) {
        GroupingKeeps(Split(inv, ws, items).0, Key(w, v));
      }
      SplitFitsIff(inv, ws, items, v);
    }
  }

  /** On an unchanged snapshot, the shipments of a routed order can all be reserved exactly if every variant that occurs
      more than once in it fits, all its items together, in the one warehouse that its first item comes from. Then
      exactly their units are reserved, within the bounds of every row. */
  lemma {:induction false} RoutedOrderShipsIff(inv: Inventory, ws: seq<int>, items: seq<Item>)
    requires M.Sound(inv) && Distinct(ws) && Positive(items) && Route(inv, ws, items).Shipments?
    ensures var lines := AllLines(Route(inv, ws, items).list);
            && (ShipLines(inv, lines).Some? <==> forall v :: RepeatFits(inv, ws, items, v))
            && (ShipLines(inv, lines).Some? ==>
                  && M.Sound(ShipLines(inv, lines).value)
                  && M.Shifted(inv, ShipLines(inv, lines).value, lines, M.Keep, M.Gain))
  {
    var lines := AllLines(Route(inv, ws, items).list);
    RoutedIsStocked(inv, ws, items);
    ShippableIff(inv, lines);
    forall v
      ensures FitsEverywhere(inv, lines, v) <==> RepeatFits(inv, ws, items, v)
    {
      RoutedFitsIff(inv, ws, items, v);
    }
    AvailableIsLeft(inv, lines);
  }

  /** Per key or per variant and warehouse, sellable or available: the same condition. */
  lemma {:induction false} AvailableIsLeft(inv: Inventory, lines: seq<Line>)
    requires M.Sound(inv)
    ensures (forall k :: M.QtyAt(lines, k) <= M.Stock(inv, k) - M.Reserved(inv, k))
       <==> forall v :: FitsEverywhere(inv, lines, v)
  {
    forall k ensures AvailableAt(inv, k) == M.Stock(inv, k) - M.Reserved(inv, k) && k == Key(k.warehouseId, k.variantId)
    {
    }
    if forall v :: FitsEverywhere(inv, lines, v) {
      forall k ensures M.QtyAt(lines, k) <= AvailableAt(inv, k) {
        assert FitsEverywhere(inv, lines, k.variantId);
      }
    }
  }

  lemma {:induction false} DistinctCountsOnce(items: seq<Item>, v: int)
    requires DistinctVariants(items)
    ensures Count(items, v) <= 1
    decreases |items|
  {
    if items != [] {
      var front := items[..|items| - 1];
      assert forall i :: 0 <= i < |front| ==> front[i] == items[i];
      DistinctCountsOnce(front, v);
      CountedIsWanted(front, v);
    }
  }

  /** All shipments of a routed order can be reserved when no variant occurs twice in it. */
  lemma {:induction false} RoutedShipmentsFit(inv: Inventory, ws: seq<int>, items: seq<Item>)
    requires M.Sound(inv) && Distinct(ws) && Positive(items) && DistinctVariants(items)
    requires Route(inv, ws, items).Shipments?
    ensures var lines := AllLines(Route(inv, ws, items).list);
            && ShipLines(inv, lines).Some? && M.Sound(ShipLines(inv, lines).value)
            && M.Shifted(inv, ShipLines(inv, lines).value, lines, M.Keep, M.Gain)
  {
    forall v ensures Count(items, v) <= 1 {
      DistinctCountsOnce(items, v);
    }
    RoutedOrderShipsIff(inv, ws, items);
  }

  /** Two warehouses with three units each, and two items of four and one: routed as a split, and not reservable. */
  lemma {:induction false} RepeatedVariantOverbooks(inv: Inventory, items: seq<Item>)
    requires M.Sound(inv) && inv.rows == map[Key(1, 7) := Row(3, 0), Key(2, 7) := Row(3, 0)]
    requires items == [Item(7, 4), Item(7, 1)]
    ensures Route(inv, [1, 2], items).Shipments?
    ensures ShipLines(inv, AllLines(Route(inv, [1, 2], items).list)).None?
  {
    assert TotalAvailable(inv, [1, 2], 7) == 6 by {
      assert [1, 2][1..] == [2] && [2][1..] == [];
      assert TotalAvailable(inv, [2][1..], 7) == 0 && TotalAvailable(inv, [2], 7) == 3;
    }
    RouteFailsIff(inv, [1, 2], items);
    assert items[..1] == [Item(7, 4)] && [Item(7, 4)][..0] == [];
    assert Count(items, 7) == 2 && Wanted(items, 7) == 5;
    assert FirstThatFits(inv, [1, 2], items).None? by {
      assert Available(inv, 1, items[0].variantId) == Some(3) && Available(inv, 2, items[0].variantId) == Some(3);
    }
    assert FirstWith(inv, [1, 2], 7) == Some(1);
    RoutedOrderShipsIff(inv, [1, 2], items);
    assert !RepeatFits(inv, [1, 2], items, 7);
  }
}
