/** WarehouseService.routeOrder: one warehouse if it can serve the whole order, otherwise a greedy split. */
module Routing {
  import opened Schema
  import M = InventoryMoves

  datatype Item = Item(variantId: int, quantity: int)

  datatype Shipment = Shipment(warehouseId: int, items: seq<Item>)

  datatype Routed = Shipments(list: seq<Shipment>) | Insufficient(variantId: int)

  // ---------- What routing computes ----------

  /** Sellable units of a variant at a warehouse, if it has an inventory row there. */
  function Available(inv: Inventory, w: int, v: int): Option<int> {
    var k := Key(w, v);
    if k in inv.rows then Some(inv.rows[k].stock - inv.rows[k].reserved) else None
  }

  predicate HasAll(inv: Inventory, w: int, items: seq<Item>) {
    forall i :: 0 <= i < |items| ==>
      Available(inv, w, items[i].variantId).Some? && Available(inv, w, items[i].variantId).value >= items[i].quantity
  }

  /** The first active warehouse that has everything. */
  function FirstThatFits(inv: Inventory, ws: seq<int>, items: seq<Item>): (r: Option<int>)
    ensures r.Some? ==> r.value in ws && HasAll(inv, r.value, items)
    ensures r.None? ==> forall w :: w in ws ==> !HasAll(inv, w, items)
  {
    if ws == [] then None else if HasAll(inv, ws[0], items) then Some(ws[0]) else FirstThatFits(inv, ws[1..], items)
  }

  /** What the warehouses give for one item, in order, and what then remains of it. */
  function Takes(inv: Inventory, ws: seq<int>, v: int, remaining: int): (seq<Line>, int) {
    if ws == [] || remaining == 0 then ([], remaining)
    else
      var available := Available(inv, ws[0], v);
      if available.None? || available.value <= 0 then Takes(inv, ws[1..], v, remaining)
      else
        var take := if available.value <= remaining then available.value else remaining;
        var rest := Takes(inv, ws[1..], v, remaining - take);
        ([Line(ws[0], v, take)] + rest.0, rest.1)
  }

  /** The takes of all items, up to the first item that comes up short. */
  function Split(inv: Inventory, ws: seq<int>, items: seq<Item>): (seq<Line>, Option<int>) {
    if items == [] then ([], None)
    else
      var before, item := Split(inv, ws, items[..|items| - 1]), items[|items| - 1];
      if before.1.Some? then before
      else
        var takes := Takes(inv, ws, item.variantId, item.quantity);
        (before.0 + takes.0, if takes.1 > 0 then Some(item.variantId) else None)
  }

  /** Appends a take to the assignment of its warehouse; new warehouses come last. */
  function Assign(list: seq<Shipment>, line: Line): seq<Shipment> {
    var item := Item(line.variantId, line.quantity);
    if list == [] then [Shipment(line.warehouseId, [item])]
    else if list[0].warehouseId == line.warehouseId then
      [Shipment(line.warehouseId, list[0].items + [item])] + list[1..]
    else [list[0]] + Assign(list[1..], line)
  }

  function Grouped(lines: seq<Line>): seq<Shipment> {
    if lines == [] then [] else Assign(Grouped(lines[..|lines| - 1]), lines[|lines| - 1])
  }

  function Route(inv: Inventory, ws: seq<int>, items: seq<Item>): Routed {
    match FirstThatFits(inv, ws, items)
    case Some(w) => Shipments([Shipment(w, items)])
    case None =>
      var split := Split(inv, ws, items);
      if split.1.Some? then Insufficient(split.1.value) else Shipments(Grouped(split.0))
  }

  // ---------- The loops ----------

  method CanFulfill(inv: Inventory, w: int, items: seq<Item>) returns (can: bool)
    ensures can <==> HasAll(inv, w, items)
  {
    var i := 0;
    while i < |items|
      invariant i <= |items| && HasAll(inv, w, items[..i])
    {
      var available := Available(inv, w, items[i].variantId);
      if available.None? || available.value < items[i].quantity {
        return false;
      }
      i := i + 1;
    }
    assert items[..i] == items;
    can := true;
  }

  function AssignAll(list: seq<Shipment>, lines: seq<Line>): seq<Shipment> {
    if lines == [] then list else Assign(AssignAll(list, lines[..|lines| - 1]), lines[|lines| - 1])
  }

  lemma {:induction false} AssignAllOneMore(list: seq<Shipment>, lines: seq<Line>, line: Line)
    ensures AssignAll(list, lines + [line]) == Assign(AssignAll(list, lines), line)
  {
    assert (lines + [line])[..|lines|] == lines;
  }

  lemma {:induction false} GroupedConcat(lines: seq<Line>, more: seq<Line>)
    ensures Grouped(lines + more) == AssignAll(Grouped(lines), more)
    decreases |more|
  {
    if more == [] {
      assert lines + more == lines;
    } else {
      var n := |more| - 1;
      assert (lines + more)[..|lines| + n] == lines + more[..n];
      GroupedConcat(lines, more[..n]);
    }
  }

  /** The takes that `done` begins and that the warehouses from `rest` on complete. */
  predicate Completes(inv: Inventory, ws: seq<int>, item: Item, done: seq<Line>, rest: seq<int>, remaining: int) {
    var all, last := Takes(inv, ws, item.variantId, item.quantity), Takes(inv, rest, item.variantId, remaining);
    all.0 == done + last.0 && all.1 == last.1
  }

  lemma {:induction false} OneMoreWarehouse(inv: Inventory, ws: seq<int>, item: Item, done: seq<Line>, rest: seq<int>,
                                            remaining: int)
    requires Completes(inv, ws, item, done, rest, remaining) && rest != [] && remaining != 0
    ensures var available := Available(inv, rest[0], item.variantId);
            if available.None? || available.value <= 0 then Completes(inv, ws, item, done, rest[1..], remaining)
            else
              var take := if available.value <= remaining then available.value else remaining;
              Completes(inv, ws, item, done + [Line(rest[0], item.variantId, take)], rest[1..], remaining - take)
  {
  }

  /** The inner loop over warehouses, for one item. */
  method TakeFrom(inv: Inventory, ws: seq<int>, item: Item, assignments: seq<Shipment>)
    returns (after: seq<Shipment>, remaining: int)
    ensures var takes := Takes(inv, ws, item.variantId, item.quantity);
            after == AssignAll(assignments, takes.0) && remaining == takes.1
  {
    after, remaining := assignments, item.quantity;
    ghost var done: seq<Line> := [];
    assert ws[0..] == ws;
    var i := 0;
    while i < |ws|
      invariant i <= |ws| && after == AssignAll(assignments, done)
      invariant Completes(inv, ws, item, done, ws[i..], remaining)
    {
      if remaining == 0 {
        break;
      }
      OneMoreWarehouse(inv, ws, item, done, ws[i..], remaining);
      assert ws[i..][1..] == ws[i + 1..];
      var available := Available(inv, ws[i], item.variantId);
      if available.Some? && available.value > 0 {
        var take := if available.value <= remaining then available.value else remaining;
        var line := Line(ws[i], item.variantId, take);
        AssignAllOneMore(assignments, done, line);
        after, done, remaining := Assign(after, line), done + [line], remaining - take;
      }
      i := i + 1;
    }
    assert done + [] == done;
  }

  method RouteOrder(inv: Inventory, ws: seq<int>, items: seq<Item>) returns (r: Routed)
    ensures r == Route(inv, ws, items)
  {
    var i := 0;
    while i < |ws|
      invariant i <= |ws| && FirstThatFits(inv, ws, items) == FirstThatFits(inv, ws[i..], items)
    {
      var can := CanFulfill(inv, ws[i], items);
      if can {
        return Shipments([Shipment(ws[i], items)]);
      }
      i := i + 1;
    }
    var assignments := [];
    ghost var lines := [];
    var n := 0;
    while n < |items|
      invariant n <= |items| && assignments == Grouped(lines) && Split(inv, ws, items[..n]) == (lines, None)
    {
      var remaining;
      assert items[..n + 1][..n] == items[..n];
      assignments, remaining := TakeFrom(inv, ws, items[n], assignments);
      GroupedConcat(lines, Takes(inv, ws, items[n].variantId, items[n].quantity).0);
      lines := lines + Takes(inv, ws, items[n].variantId, items[n].quantity).0;
      if remaining > 0 {
        ShortStaysShort(inv, ws, items, n + 1);
        return Insufficient(items[n].variantId);
      }
      n := n + 1;
    }
    assert items[..n] == items;
    r := Shipments(assignments);
  }

  lemma {:induction false} ShortStaysShort(inv: Inventory, ws: seq<int>, items: seq<Item>, n: nat)
    requires n <= |items| && Split(inv, ws, items[..n]).1.Some?
    ensures Split(inv, ws, items) == Split(inv, ws, items[..n])
    decreases |items|
  {
    if n == |items| {
      assert items[..n] == items;
    } else {
      var front := items[..|items| - 1];
      assert front[..n] == items[..n];
      ShortStaysShort(inv, ws, front, n);
    }
  }

  /** A single shipment comes from the first active warehouse that has everything. */
  lemma {:induction false} SingleIsFirst(inv: Inventory, ws: seq<int>, items: seq<Item>) returns (i: nat)
    requires FirstThatFits(inv, ws, items).Some?
    ensures i < |ws| && Route(inv, ws, items) == Shipments([Shipment(ws[i], items)])
    ensures HasAll(inv, ws[i], items) && forall j :: 0 <= j < i ==> !HasAll(inv, ws[j], items)
  {
    if HasAll(inv, ws[0], items) {
      i := 0;
    } else {
      var k := SingleIsFirst(inv, ws[1..], items);
      i := k + 1;
      assert ws[i] == ws[1..][k] && forall j :: 0 < j < i ==> ws[j] == ws[1..][j - 1];
    }
  }

  // ---------- One shipment per warehouse ----------

  /** What the lines take from one warehouse, in their order. */
  function ItemsFrom(lines: seq<Line>, w: int): seq<Item> {
    if lines == [] then []
    else
      var last := lines[|lines| - 1];
      ItemsFrom(lines[..|lines| - 1], w)
      + if last.warehouseId == w then [Item(last.variantId, last.quantity)] else []
  }

  /** What a list of shipments takes from one warehouse. */
  function ShippedFrom(list: seq<Shipment>, w: int): seq<Item> {
    if list == [] then [] else (if list[0].warehouseId == w then list[0].items else []) + ShippedFrom(list[1..], w)
  }

  ghost predicate OnePerWarehouse(list: seq<Shipment>) {
    && (forall i, j :: 0 <= i < j < |list| ==> list[i].warehouseId != list[j].warehouseId)
    && (forall i :: 0 <= i < |list| ==> list[i].items != [])
  }

  lemma {:induction false} NothingFromOthers(list: seq<Shipment>, w: int)
    requires forall i :: 0 <= i < |list| ==> list[i].warehouseId != w
    ensures ShippedFrom(list, w) == []
  {
    if list != [] {
      NothingFromOthers(list[1..], w);
    }
  }

  lemma {:induction false} AssignAdds(list: seq<Shipment>, line: Line, w: int)
    requires OnePerWarehouse(list)
    ensures ShippedFrom(Assign(list, line), w)
         == ShippedFrom(list, w)
            + if line.warehouseId == w then [Item(line.variantId, line.quantity)] else []
  {
    if list == [] {
      assert Assign(list, line)[1..] == [];
    } else {
      var rest := list[1..];
      assert OnePerWarehouse(rest);
      if list[0].warehouseId == line.warehouseId {
        assert Assign(list, line)[1..] == rest;
        if line.warehouseId == w {
          forall i | 0 <= i < |rest| ensures rest[i].warehouseId != w {
            assert rest[i] == list[i + 1];
          }
          NothingFromOthers(rest, w);
        }
      } else {
        AssignAdds(rest, line, w);
        assert Assign(list, line)[1..] == Assign(rest, line);
      }
    }
  }

  ghost predicate ComesFrom(list: seq<Shipment>, w: int) {
    exists i :: 0 <= i < |list| && list[i].warehouseId == w
  }

  lemma {:induction false} AssignKeepsApart(list: seq<Shipment>, line: Line)
    requires OnePerWarehouse(list)
    ensures OnePerWarehouse(Assign(list, line))
    ensures forall w :: ComesFrom(Assign(list, line), w) ==> w == line.warehouseId || ComesFrom(list, w)
  {
    if list != [] {
      var rest, after := list[1..], Assign(list, line);
      assert OnePerWarehouse(rest);
      assert forall i :: 0 <= i < |rest| ==> rest[i] == list[i + 1];
      if list[0].warehouseId != line.warehouseId {
        AssignKeepsApart(rest, line);
        var tail := Assign(rest, line);
        assert after == [list[0]] + tail;
        forall i | 0 <= i < |tail|
          ensures tail[i].warehouseId != list[0].warehouseId
        {
          assert ComesFrom(tail, tail[i].warehouseId);
        }
        forall w | ComesFrom(after, w)
          ensures w == line.warehouseId || ComesFrom(list, w)
        {
          var i :| 0 <= i < |after| && after[i].warehouseId == w;
          if i > 0 {
            assert tail[i - 1] == after[i] && ComesFrom(tail, w);
          }
        }
      }
    }
  }

  /** A split order has one shipment per warehouse, and each takes exactly what the greedy loop took from its
      warehouse, in the order of the items. */
  lemma {:induction false} GroupedByWarehouse(lines: seq<Line>, w: int)
    ensures OnePerWarehouse(Grouped(lines))
    ensures ShippedFrom(Grouped(lines), w) == ItemsFrom(lines, w)
    decreases |lines|
  {
    if lines != [] {
      GroupedByWarehouse(lines[..|lines| - 1], w);
      AssignKeepsApart(Grouped(lines[..|lines| - 1]), lines[|lines| - 1]);
      AssignAdds(Grouped(lines[..|lines| - 1]), lines[|lines| - 1], w);
    }
  }

  // ---------- One item ----------

  function Least(n: int): nat {
    if n < 0 then 0 else n
  }

  /** All positive availability of a variant over the active warehouses. */
  function TotalAvailable(inv: Inventory, ws: seq<int>, v: int): nat {
    if ws == [] then 0
    else
      TotalAvailable(inv, ws[1..], v)
      + match Available(inv, ws[0], v) case None => 0 case Some(n) => Least(n)
  }

  function Quantity(lines: seq<Line>): int {
    if lines == [] then 0 else lines[0].quantity + Quantity(lines[1..])
  }

  predicate Distinct<T(==)>(s: seq<T>) {
    forall i, j :: 0 <= i < j < |s| ==> s[i] != s[j]
  }

  /** A take is at least one unit, and no more than its warehouse has. */
  predicate IsTake(inv: Inventory, ws: seq<int>, v: int, l: Line) {
    && l.variantId == v && l.warehouseId in ws && Available(inv, l.warehouseId, v).Some?
    && 1 <= l.quantity <= Available(inv, l.warehouseId, v).value
  }

  /** The takes of an item add up to it, as far as the warehouses can serve it at all. */
  lemma {:induction false} TakesAddUp(inv: Inventory, ws: seq<int>, v: int, q: nat)
    ensures var takes := Takes(inv, ws, v, q);
            && Quantity(takes.0) + takes.1 == q
            && takes.1 == Least(q - TotalAvailable(inv, ws, v))
            && (forall l :: l in takes.0 ==> IsTake(inv, ws, v, l))
  {
    if ws != [] && q > 0 {
      var available := Available(inv, ws[0], v);
      if available.None? || available.value <= 0 {
        TakesAddUp(inv, ws[1..], v, q);
      } else {
        var take := if available.value <= q then available.value else q;
        TakesAddUp(inv, ws[1..], v, q - take);
        var rest := Takes(inv, ws[1..], v, q - take);
        assert ([Line(ws[0], v, take)] + rest.0)[1..] == rest.0;
      }
    }
  }

  /** No warehouse gives twice to the same item. */
  lemma {:induction false} TakesAreApart(inv: Inventory, ws: seq<int>, v: int, q: nat)
    requires Distinct(ws)
    ensures forall i, j :: 0 <= i < j < |Takes(inv, ws, v, q).0| ==>
              Takes(inv, ws, v, q).0[i].warehouseId != Takes(inv, ws, v, q).0[j].warehouseId
  {
    if ws != [] && q > 0 {
      var available := Available(inv, ws[0], v);
      if available.None? || available.value <= 0 {
        TakesAreApart(inv, ws[1..], v, q);
      } else {
        var take := if available.value <= q then available.value else q;
        TakesAreApart(inv, ws[1..], v, q - take);
        TakesAddUp(inv, ws[1..], v, q - take);
        assert ws[0] !in ws[1..];
        var rest := Takes(inv, ws[1..], v, q - take).0;
        assert forall l :: l in rest ==> l.warehouseId != ws[0];
      }
    }
  }

  /** Before a warehouse gives anything, every earlier one has given all it can sell. */
  lemma {:induction false} TakesAreGreedy(inv: Inventory, ws: seq<int>, v: int, q: nat, k: nat, j: nat)
    requires Distinct(ws) && k < j < |ws|
    requires exists l :: l in Takes(inv, ws, v, q).0 && l.warehouseId == ws[j]
    requires Available(inv, ws[k], v).Some? && Available(inv, ws[k], v).value > 0
    ensures Line(ws[k], v, Available(inv, ws[k], v).value) in Takes(inv, ws, v, q).0
  {
    var l :| l in Takes(inv, ws, v, q).0 && l.warehouseId == ws[j];
    var available := Available(inv, ws[0], v);
    if available.None? || available.value <= 0 {
      TakesAreGreedy(inv, ws[1..], v, q, k - 1, j - 1);
    } else {
      var take := if available.value <= q then available.value else q;
      var rest := Takes(inv, ws[1..], v, q - take).0;
      assert l in rest;
      if k > 0 {
        assert ws[1..][j - 1] == ws[j] && ws[1..][k - 1] == ws[k];
        TakesAreGreedy(inv, ws[1..], v, q - take, k - 1, j - 1);
      }
    }
  }

  predicate Positive(items: seq<Item>) {
    forall i :: 0 <= i < |items| ==> items[i].quantity > 0
  }

  /** No set of shipments could serve this item. */
  predicate Hopeless(inv: Inventory, ws: seq<int>, item: Item) {
    item.quantity > TotalAvailable(inv, ws, item.variantId)
  }

  lemma {:induction false} SplitFailsIff(inv: Inventory, ws: seq<int>, items: seq<Item>)
    requires Positive(items)
    ensures Split(inv, ws, items).1.Some? <==> exists i :: 0 <= i < |items| && Hopeless(inv, ws, items[i])
    ensures Split(inv, ws, items).1.Some? ==>
              exists i :: 0 <= i < |items| && Hopeless(inv, ws, items[i])
                          && Split(inv, ws, items).1.value == items[i].variantId
                          && forall j :: 0 <= j < i ==> !Hopeless(inv, ws, items[j])
    decreases |items|
  {
    if items != [] {
      var n := |items| - 1;
      SplitFailsIff(inv, ws, items[..n]);
      TakesAddUp(inv, ws, items[n].variantId, items[n].quantity);
      assert forall i :: 0 <= i < n ==> items[..n][i] == items[i];
    }
  }

  lemma {:induction false} SomeWarehouseHasIt(inv: Inventory, ws: seq<int>, w: int, item: Item)
    requires w in ws && HasAll(inv, w, [item])
    ensures !Hopeless(inv, ws, item)
  {
    assert [item][0] == item;
    if ws[0] != w {
      SomeWarehouseHasIt(inv, ws[1..], w, item);
    }
  }

  /** Routing fails exactly if some item exceeds what all active warehouses together can sell; it names the first. */
  lemma {:induction false} RouteFailsIff(inv: Inventory, ws: seq<int>, items: seq<Item>)
    requires Positive(items)
    ensures Route(inv, ws, items).Insufficient? <==> exists i :: 0 <= i < |items| && Hopeless(inv, ws, items[i])
    ensures Route(inv, ws, items).Insufficient? ==>
              exists i :: 0 <= i < |items| && Hopeless(inv, ws, items[i])
                          && Route(inv, ws, items).variantId == items[i].variantId
                          && forall j :: 0 <= j < i ==> !Hopeless(inv, ws, items[j])
  {
    SplitFailsIff(inv, ws, items);
    var single := FirstThatFits(inv, ws, items);
    if single.Some? {
      forall i | 0 <= i < |items|
        ensures !Hopeless(inv, ws, items[i])
      {
        SomeWarehouseHasIt(inv, ws, single.value, items[i]);
      }
    }
  }
}
