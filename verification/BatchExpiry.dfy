/** The batched expiry statement ends in the same tables as releasing the reservations one by one, in any order. */
module BatchExpiry {
  import opened Schema
  import opened InventoryMoves
  import opened Reservations

  // ---------- Grouping ----------

  /** Sum over the rows whose key satisfies p. */
  ghost function Total<K(!new)>(rows: seq<Group<K>>, p: K -> bool): int {
    if rows == [] then 0
    else Total(rows[..|rows| - 1], p) + if p(rows[|rows| - 1].key) then rows[|rows| - 1].qty else 0
  }

  ghost predicate Touches<K(!new)>(rows: seq<Group<K>>, p: K -> bool) {
    exists i :: 0 <= i < |rows| && p(rows[i].key)
  }

  ghost predicate DistinctKeys<K(!new)>(groups: seq<Group<K>>) {
    forall i, j :: 0 <= i < j < |groups| ==> groups[i].key != groups[j].key
  }

  ghost function Is<K(!new)>(key: K): K -> bool {
    (k: K) => k == key
  }

  ghost function OfVariant(v: int): Key -> bool {
    (k: Key) => k.variantId == v
  }

  lemma {:induction false} TotalConcat<K(!new)>(a: seq<Group<K>>, b: seq<Group<K>>, p: K -> bool)
    ensures Total(a + b, p) == Total(a, p) + Total(b, p)
    decreases |b|
  {
    if b == [] {
      assert a + b == a;
    } else {
      assert (a + b)[..|a + b| - 1] == a + b[..|b| - 1];
      TotalConcat(a, b[..|b| - 1], p);
    }
  }

  lemma {:induction false} TotalUpdate<K(!new)>(rows: seq<Group<K>>, i: nat, qty: int, p: K -> bool)
    requires i < |rows|
    ensures Total(rows[i := Group(rows[i].key, qty)], p)
         == Total(rows, p) + if p(rows[i].key) then qty - rows[i].qty else 0
    decreases |rows|
  {
    var updated := rows[i := Group(rows[i].key, qty)];
    var front := rows[..|rows| - 1];
    if i < |rows| - 1 {
      assert updated[..|rows| - 1] == front[i := Group(front[i].key, qty)];
      TotalUpdate(front, i, qty, p);
    } else {
      assert updated[..|rows| - 1] == front;
    }
  }

  lemma TouchesOneMore<K(!new)>(rows: seq<Group<K>>, p: K -> bool)
    requires rows != []
    ensures Touches(rows, p) <==> Touches(rows[..|rows| - 1], p) || p(rows[|rows| - 1].key)
  {
    var front := rows[..|rows| - 1];
    assert forall i :: 0 <= i < |front| ==> front[i] == rows[i];
    if Touches(front, p) {
      var i :| 0 <= i < |front| && p(front[i].key);
      assert p(rows[i].key);
    }
    if p(rows[|rows| - 1].key) {
      assert Touches(rows, p);
    }
  }

  lemma TouchesUpdate<K(!new)>(rows: seq<Group<K>>, i: nat, qty: int, p: K -> bool)
    requires i < |rows|
    ensures Touches(rows[i := Group(rows[i].key, qty)], p) <==> Touches(rows, p)
  {
    var updated := rows[i := Group(rows[i].key, qty)];
    assert forall j :: 0 <= j < |rows| ==> updated[j].key == rows[j].key;
    if Touches(rows, p) {
      var j :| 0 <= j < |rows| && p(rows[j].key);
      assert p(updated[j].key);
    }
  }

  lemma {:induction false} AddKeepsDistinct<K(!new)>(groups: seq<Group<K>>, row: Group<K>)
    requires DistinctKeys(groups)
    ensures DistinctKeys(AddToGroup(groups, row))
  {
  }

  lemma {:induction false} AddCounts<K(!new)>(groups: seq<Group<K>>, row: Group<K>, p: K -> bool)
    ensures Total(AddToGroup(groups, row), p) == Total(groups, p) + if p(row.key) then row.qty else 0
  {
    var i := Find(groups, row.key);
    if i < |groups| {
      TotalUpdate(groups, i, groups[i].qty + row.qty, p);
    } else {
      assert (groups + [row])[..|groups|] == groups;
    }
  }

  lemma {:induction false} AddTouches<K(!new)>(groups: seq<Group<K>>, row: Group<K>, p: K -> bool)
    ensures Touches(AddToGroup(groups, row), p) <==> Touches(groups, p) || p(row.key)
  {
    var i := Find(groups, row.key);
    if i < |groups| {
      TouchesUpdate(groups, i, groups[i].qty + row.qty, p);
    } else {
      assert (groups + [row])[..|groups|] == groups;
      TouchesOneMore(groups + [row], p);
    }
  }

  lemma {:induction false} GroupByIsDistinct<K(!new)>(rows: seq<Group<K>>)
    ensures DistinctKeys(GroupBy(rows))
    decreases |rows|
  {
    if rows != [] {
      GroupByIsDistinct(rows[..|rows| - 1]);
      AddKeepsDistinct(GroupBy(rows[..|rows| - 1]), rows[|rows| - 1]);
    }
  }

  lemma {:induction false} GroupByKeepsTotal<K(!new)>(rows: seq<Group<K>>, p: K -> bool)
    ensures Total(GroupBy(rows), p) == Total(rows, p)
    decreases |rows|
  {
    if rows != [] {
      GroupByKeepsTotal(rows[..|rows| - 1], p);
      AddCounts(GroupBy(rows[..|rows| - 1]), rows[|rows| - 1], p);
    }
  }

  lemma {:induction false} GroupByTouches<K(!new)>(rows: seq<Group<K>>, p: K -> bool)
    ensures Touches(GroupBy(rows), p) <==> Touches(rows, p)
    decreases |rows|
  {
    if rows != [] {
      GroupByTouches(rows[..|rows| - 1], p);
      TouchesOneMore(rows, p);
      AddTouches(GroupBy(rows[..|rows| - 1]), rows[|rows| - 1], p);
    }
  }

  /** Grouping keeps the keys distinct, loses no key, and keeps every sum over a class of keys: the classes of the
      first grouping are single keys, those of the second are all warehouses of one variant. */
  lemma {:induction false} GroupByKeepsTotals<K(!new)>(rows: seq<Group<K>>, p: K -> bool)
    ensures DistinctKeys(GroupBy(rows))
    ensures Total(GroupBy(rows), p) == Total(rows, p)
    ensures Touches(GroupBy(rows), p) <==> Touches(rows, p)
  {
    GroupByIsDistinct(rows);
    GroupByKeepsTotal(rows, p);
    GroupByTouches(rows, p);
  }

  /** Looking a key up in distinct groups gives its total. */
  lemma {:induction false} FindIsTotal<K(!new)>(groups: seq<Group<K>>, key: K)
    requires DistinctKeys(groups)
    ensures Find(groups, key) < |groups| <==> Touches(groups, Is(key))
    ensures Find(groups, key) < |groups| ==> groups[Find(groups, key)].qty == Total(groups, Is(key))
    ensures Find(groups, key) == |groups| ==> Total(groups, Is(key)) == 0
    decreases |groups|
  {
    if groups != [] {
      var front := groups[..|groups| - 1];
      FindIsTotal(front, key);
      TouchesOneMore(groups, Is(key));
      var i := Find(front, key);
      if i < |front| {
        assert groups[i] == front[i];
      }
    }
  }

  /** Grouping the sums of the first grouping by variant sums over all rows of the variant. */
  lemma {:induction false} VariantRowsTotal(groups: seq<Group<Key>>, v: int)
    ensures Total(VariantRows(groups), Is(v)) == Total(groups, OfVariant(v))
    ensures Touches(VariantRows(groups), Is(v)) <==> Touches(groups, OfVariant(v))
    decreases |groups|
  {
    if groups != [] {
      var front := groups[..|groups| - 1];
      VariantRowsTotal(front, v);
      assert VariantRows(groups)[..|groups| - 1] == VariantRows(front);
      TouchesOneMore(groups, OfVariant(v));
      TouchesOneMore(VariantRows(groups), Is(v));
    }
  }

  // ---------- The serial loop, in closed form ----------

  lemma {:induction false} ReleaseHoldsConcat(inv: Inventory, a: seq<Line>, b: seq<Line>)
    ensures ReleaseHolds(inv, a + b) == ReleaseHolds(ReleaseHolds(inv, a), b)
    decreases |b|
  {
    if b == [] {
      assert a + b == a;
    } else {
      assert (a + b)[..|a + b| - 1] == a + b[..|b| - 1];
      ReleaseHoldsConcat(inv, a, b[..|b| - 1]);
    }
  }

  ghost predicate NonNegative(lines: seq<Line>) {
    forall i :: 0 <= i < |lines| ==> lines[i].quantity >= 0
  }

  /** One clamped subtraction of a total. */
  function Subtract(touched: bool, value: int, total: int): int {
    if touched then Clamp(value - total) else value
  }

  ghost function ReleasedRow(row: Row, lines: seq<Line>, k: Key): Row {
    row.(reserved := Subtract(Touches(ItemRows(lines), Is(k)), row.reserved, Total(ItemRows(lines), Is(k))))
  }

  ghost function ReleasedVariant(c: Variant, lines: seq<Line>, v: int): Variant {
    c.(reservedStock := Subtract(Touches(ItemRows(lines), OfVariant(v)), c.reservedStock,
                                 Total(ItemRows(lines), OfVariant(v))))
  }

  lemma ItemsOneMore(lines: seq<Line>, p: Key -> bool)
    requires lines != [] && NonNegative(lines)
    ensures var front, last := lines[..|lines| - 1], lines[|lines| - 1];
            && (Touches(ItemRows(lines), p) <==> Touches(ItemRows(front), p) || p(last.AtKey()))
            && Total(ItemRows(lines), p)
               == Total(ItemRows(front), p) + (if p(last.AtKey()) then last.quantity else 0)
            && 0 <= Total(ItemRows(front), p)
            && (!Touches(ItemRows(front), p) ==> Total(ItemRows(front), p) == 0)
  {
    assert ItemRows(lines)[..|lines| - 1] == ItemRows(lines[..|lines| - 1]);
    TouchesOneMore(ItemRows(lines), p);
    TotalNonNegative(lines[..|lines| - 1], p);
  }

  /** Clamping after every line subtracts the total and clamps once: on a row, ... */
  lemma {:induction false} ReleaseHoldsRow(inv: Inventory, lines: seq<Line>, k: Key)
    requires NonNegative(lines)
    ensures k in ReleaseHolds(inv, lines).rows <==> k in inv.rows
    ensures k in inv.rows ==> ReleaseHolds(inv, lines).rows[k] == ReleasedRow(inv.rows[k], lines, k)
    decreases |lines|
  {
    if lines != [] {
      ReleaseHoldsRow(inv, lines[..|lines| - 1], k);
      ItemsOneMore(lines, Is(k));
    }
  }

  /** ... and on a cache row. */
  lemma {:induction false} ReleaseHoldsVariant(inv: Inventory, lines: seq<Line>, v: int)
    requires NonNegative(lines)
    ensures v in ReleaseHolds(inv, lines).variants <==> v in inv.variants
    ensures v in inv.variants ==>
              ReleaseHolds(inv, lines).variants[v] == ReleasedVariant(inv.variants[v], lines, v)
    decreases |lines|
  {
    if lines != [] {
      ReleaseHoldsVariant(inv, lines[..|lines| - 1], v);
      ItemsOneMore(lines, OfVariant(v));
    }
  }

  lemma {:induction false} TotalNonNegative(lines: seq<Line>, p: Key -> bool)
    requires NonNegative(lines)
    ensures 0 <= Total(ItemRows(lines), p)
    ensures !Touches(ItemRows(lines), p) ==> Total(ItemRows(lines), p) == 0
    decreases |lines|
  {
    if lines != [] {
      TotalNonNegative(lines[..|lines| - 1], p);
      assert ItemRows(lines)[..|lines| - 1] == ItemRows(lines[..|lines| - 1]);
      TouchesOneMore(ItemRows(lines), p);
    }
  }

  ghost predicate Distinct(ids: seq<int>) {
    forall i, j :: 0 <= i < j < |ids| ==> ids[i] != ids[j]
  }

  lemma {:induction false} SerialExpireClosed(t: Tables, ids: seq<int>)
    requires Distinct(ids)
    ensures SerialExpire(t, ids)
         == Tables(ReleaseHolds(t.inv, ExpiredItems(t.reservations, ids)), Flip(t.reservations, ids), t.orders)
    decreases |ids|
  {
    if ids == [] {
      assert Flip(t.reservations, ids) == t.reservations;
    } else {
      var front, id := ids[..|ids| - 1], ids[|ids| - 1];
      SerialExpireClosed(t, front);
      assert id !in front;
      assert forall j :: j in ids <==> j in front || j == id;
      var mid := SerialExpire(t, front);
      var r := t.reservations;
      if id in r && r[id].status.ACTIVE? {
        ReleaseHoldsConcat(t.inv, ExpiredItems(r, front), r[id].items);
        assert Flip(r, front)[id := r[id].(status := EXPIRED)] == Flip(r, ids);
      } else {
        assert ExpiredItems(r, ids) == ExpiredItems(r, front);
        assert Flip(r, front) == Flip(r, ids);
      }
    }
  }

  // ---------- The order of the reservations does not matter ----------

  ghost function Remove<T>(s: seq<T>, i: nat): seq<T>
    requires i < |s|
  {
    s[..i] + s[i + 1..]
  }

  lemma ItemRowsConcat(a: seq<Line>, b: seq<Line>)
    ensures ItemRows(a + b) == ItemRows(a) + ItemRows(b)
  {
  }

  lemma {:induction false} ExpiredItemsConcat(r: map<int, Reservation>, a: seq<int>, b: seq<int>)
    ensures ExpiredItems(r, a + b) == ExpiredItems(r, a) + ExpiredItems(r, b)
    decreases |b|
  {
    if b == [] {
      assert a + b == a;
    } else {
      assert (a + b)[..|a + b| - 1] == a + b[..|b| - 1];
      ExpiredItemsConcat(r, a, b[..|b| - 1]);
    }
  }

  ghost function ExpiredTotal(r: map<int, Reservation>, ids: seq<int>, p: Key -> bool): int {
    Total(ItemRows(ExpiredItems(r, ids)), p)
  }

  lemma ExpiredTotalConcat(r: map<int, Reservation>, a: seq<int>, b: seq<int>, p: Key -> bool)
    ensures ExpiredTotal(r, a + b, p) == ExpiredTotal(r, a, p) + ExpiredTotal(r, b, p)
  {
    ExpiredItemsConcat(r, a, b);
    ItemRowsConcat(ExpiredItems(r, a), ExpiredItems(r, b));
    TotalConcat(ItemRows(ExpiredItems(r, a)), ItemRows(ExpiredItems(r, b)), p);
  }

  lemma {:induction false} ExpiredTotalPermuted(r: map<int, Reservation>, a: seq<int>, b: seq<int>, p: Key -> bool)
    requires multiset(a) == multiset(b)
    ensures ExpiredTotal(r, a, p) == ExpiredTotal(r, b, p)
    decreases |a|
  {
    if a == [] {
      assert |multiset(b)| == 0;
    } else {
      var id := a[|a| - 1];
      assert id in multiset(b);
      var j :| 0 <= j < |b| && b[j] == id;
      assert a == a[..|a| - 1] + [id];
      assert b == b[..j] + [id] + b[j + 1..];
      assert multiset(Remove(b, j)) == multiset(b) - multiset{id};
      assert multiset(a[..|a| - 1]) == multiset(a) - multiset{id};
      ExpiredTotalPermuted(r, a[..|a| - 1], Remove(b, j), p);
      ExpiredTotalConcat(r, a[..|a| - 1], [id], p);
      ExpiredTotalConcat(r, b[..j] + [id], b[j + 1..], p);
      ExpiredTotalConcat(r, b[..j], [id], p);
      ExpiredTotalConcat(r, b[..j], b[j + 1..], p);
    }
  }

  ghost predicate SomeTouches(r: map<int, Reservation>, ids: seq<int>, p: Key -> bool) {
    exists id :: id in ids && id in r && r[id].status.ACTIVE? && Touches(ItemRows(r[id].items), p)
  }

  /** Which keys are touched, by membership: independent of the order. */
  lemma {:induction false} ExpiredTouches(r: map<int, Reservation>, ids: seq<int>, p: Key -> bool)
    ensures Touches(ItemRows(ExpiredItems(r, ids)), p) <==> SomeTouches(r, ids, p)
    decreases |ids|
  {
    if ids != [] {
      var front, id := ids[..|ids| - 1], ids[|ids| - 1];
      ExpiredTouches(r, front, p);
      assert forall j :: j in ids <==> j in front || j == id;
      if id in r && r[id].status.ACTIVE? {
        ItemRowsConcat(ExpiredItems(r, front), r[id].items);
        TouchesConcat(ItemRows(ExpiredItems(r, front)), ItemRows(r[id].items), p);
      } else {
        assert ExpiredItems(r, ids) == ExpiredItems(r, front);
      }
      if SomeTouches(r, front, p) {
        var j :| j in front && j in r && r[j].status.ACTIVE? && Touches(ItemRows(r[j].items), p);
        assert j in ids;
      }
    }
  }

  lemma TouchesConcat<K(!new)>(a: seq<Group<K>>, b: seq<Group<K>>, p: K -> bool)
    ensures Touches(a + b, p) <==> Touches(a, p) || Touches(b, p)
  {
    if Touches(a, p) {
      var i :| 0 <= i < |a| && p(a[i].key);
      assert p((a + b)[i].key);
    }
    if Touches(b, p) {
      var i :| 0 <= i < |b| && p(b[i].key);
      assert p((a + b)[|a| + i].key);
    }
    if Touches(a + b, p) {
      var i :| 0 <= i < |a + b| && p((a + b)[i].key);
      assert if i < |a| then p(a[i].key) else p(b[i - |a|].key);
    }
  }

  // ---------- The main result ----------

  ghost predicate NonNegativeItems(r: map<int, Reservation>, ids: seq<int>) {
    forall id :: id in ids && id in r ==> NonNegative(r[id].items)
  }

  lemma {:induction false} ExpiredNonNegative(r: map<int, Reservation>, ids: seq<int>)
    requires NonNegativeItems(r, ids)
    ensures NonNegative(ExpiredItems(r, ids))
    decreases |ids|
  {
    if ids != [] {
      ExpiredNonNegative(r, ids[..|ids| - 1]);
      var id := ids[|ids| - 1];
      assert id in ids;
    }
  }

  /** What looking a key up in a grouping finds. */
  lemma {:induction false} GroupFinds<K(!new)>(rows: seq<Group<K>>, key: K)
    ensures Find(GroupBy(rows), key) < |GroupBy(rows)| <==> Touches(rows, Is(key))
    ensures Find(GroupBy(rows), key) < |GroupBy(rows)| ==>
              GroupBy(rows)[Find(GroupBy(rows), key)].qty == Total(rows, Is(key))
  {
    GroupByKeepsTotals(rows, Is(key));
    FindIsTotal(GroupBy(rows), key);
  }

  /** What looking a variant up in the second grouping finds. */
  lemma {:induction false} VariantGroupFinds(rows: seq<Group<Key>>, v: int)
    ensures var agg := GroupBy(VariantRows(GroupBy(rows)));
            && (Find(agg, v) < |agg| <==> Touches(rows, OfVariant(v)))
            && (Find(agg, v) < |agg| ==> agg[Find(agg, v)].qty == Total(rows, OfVariant(v)))
  {
    GroupFinds(VariantRows(GroupBy(rows)), v);
    VariantRowsTotal(GroupBy(rows), v);
    GroupByKeepsTotals(rows, OfVariant(v));
  }

  /** The expired items in another order touch the same keys with the same totals. */
  lemma {:induction false} ItemsPermuted(r: map<int, Reservation>, ids: seq<int>, order: seq<int>, p: Key -> bool)
    requires multiset(order) == multiset(ids)
    ensures Total(ItemRows(ExpiredItems(r, ids)), p) == Total(ItemRows(ExpiredItems(r, order)), p)
    ensures Touches(ItemRows(ExpiredItems(r, ids)), p) <==> Touches(ItemRows(ExpiredItems(r, order)), p)
  {
    SameMembers(ids, order);
    ExpiredTotalPermuted(r, ids, order, p);
    ExpiredTouches(r, ids, p);
    ExpiredTouches(r, order, p);
  }

  lemma BatchRow(rows: map<Key, Row>, batch: seq<Line>, serial: seq<Line>, k: Key)
    requires Total(ItemRows(batch), Is(k)) == Total(ItemRows(serial), Is(k))
    requires Touches(ItemRows(batch), Is(k)) <==> Touches(ItemRows(serial), Is(k))
    requires k in rows
    ensures UpdateRows(rows, GroupBy(ItemRows(batch)))[k] == ReleasedRow(rows[k], serial, k)
  {
    GroupFinds(ItemRows(batch), k);
  }

  lemma BatchVariant(variants: map<int, Variant>, batch: seq<Line>, serial: seq<Line>, v: int)
    requires Total(ItemRows(batch), OfVariant(v)) == Total(ItemRows(serial), OfVariant(v))
    requires Touches(ItemRows(batch), OfVariant(v)) <==> Touches(ItemRows(serial), OfVariant(v))
    requires v in variants
    ensures UpdateVariants(variants, GroupBy(VariantRows(GroupBy(ItemRows(batch)))))[v]
         == ReleasedVariant(variants[v], serial, v)
  {
    VariantGroupFinds(ItemRows(batch), v);
  }

  /** `out` is `inv` with every total subtracted once: this fixes every row. */
  ghost predicate Closed(inv: Inventory, lines: seq<Line>, out: Inventory) {
    && out.rows == (map k | k in inv.rows :: ReleasedRow(inv.rows[k], lines, k))
    && out.variants == (map v | v in inv.variants :: ReleasedVariant(inv.variants[v], lines, v))
  }

  lemma {:induction false} ReleaseHoldsClosed(inv: Inventory, lines: seq<Line>)
    requires NonNegative(lines)
    ensures Closed(inv, lines, ReleaseHolds(inv, lines))
  {
    forall k {
      ReleaseHoldsRow(inv, lines, k);
    }
    forall v {
      ReleaseHoldsVariant(inv, lines, v);
    }
  }

  lemma SameMembers(a: seq<int>, b: seq<int>)
    requires multiset(a) == multiset(b)
    ensures forall x :: x in a <==> x in b
  {
    assert forall x :: x in a <==> x in multiset(a);
    assert forall x :: x in b <==> x in multiset(b);
  }

  lemma {:induction false} BatchClosed(t: Tables, ids: seq<int>, order: seq<int>)
    requires multiset(order) == multiset(ids)
    ensures Closed(t.inv, ExpiredItems(t.reservations, order), BatchExpire(t, ids).inv)
  {
    var batch, serial := ExpiredItems(t.reservations, ids), ExpiredItems(t.reservations, order);
    forall k | k in t.inv.rows
      ensures UpdateRows(t.inv.rows, GroupBy(ItemRows(batch)))[k] == ReleasedRow(t.inv.rows[k], serial, k)
    {
      ItemsPermuted(t.reservations, ids, order, Is(k));
      BatchRow(t.inv.rows, batch, serial, k);
    }
    forall v | v in t.inv.variants
      ensures UpdateVariants(t.inv.variants, GroupBy(VariantRows(GroupBy(ItemRows(batch)))))[v]
           == ReleasedVariant(t.inv.variants[v], serial, v)
    {
      ItemsPermuted(t.reservations, ids, order, OfVariant(v));
      BatchVariant(t.inv.variants, batch, serial, v);
    }
  }

  /** One statement with two groupings and one clamped subtraction per row ends in exactly the tables of the serial
      loop with a clamp per item, whatever the order of that loop and whatever the rows hold. */
  lemma {:induction false} BatchIsSerial(t: Tables, ids: seq<int>, order: seq<int>)
    requires Distinct(ids) && multiset(order) == multiset(ids)
    requires NonNegativeItems(t.reservations, ids)
    ensures BatchExpire(t, ids) == SerialExpire(t, order)
  {
    SameMembers(ids, order);
    DistinctPermuted(ids, order);
    SerialExpireClosed(t, order);
    ExpiredNonNegative(t.reservations, order);
    ReleaseHoldsClosed(t.inv, ExpiredItems(t.reservations, order));
    BatchClosed(t, ids, order);
    assert Flip(t.reservations, ids) == Flip(t.reservations, order);
  }

  lemma DistinctPermuted(a: seq<int>, b: seq<int>)
    requires Distinct(a) && multiset(a) == multiset(b)
    ensures Distinct(b)
  {
    forall i, j | 0 <= i < j < |b| ensures b[i] != b[j] {
      if b[i] == b[j] {
        assert b == b[..i] + [b[i]] + b[i + 1..j] + [b[j]] + b[j + 1..];
        assert multiset(b)[b[i]] >= 2;
        DistinctCount(a, b[i]);
        assert false;
      }
    }
  }

  lemma {:induction false} DistinctCount(a: seq<int>, x: int)
    requires Distinct(a)
    ensures multiset(a)[x] <= 1
    decreases |a|
  {
    if a != [] {
      var front := a[..|a| - 1];
      assert a == front + [a[|a| - 1]];
      DistinctCount(front, x);
      assert a[|a| - 1] !in front;
    }
  }
}
