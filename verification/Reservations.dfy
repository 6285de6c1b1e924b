/** The writes of CartReservationService on reservations: consume, the release transaction, and the batched expiry. */
module Reservations {
  import opened Schema
  import opened InventoryMoves

  /** The conditional flip ACTIVE to CONSUMED; throws when no row matches. */
  function Consume(reservations: map<int, Reservation>, id: int): Option<map<int, Reservation>> {
    if id in reservations && reservations[id].status.ACTIVE? then
      Some(reservations[id := reservations[id].(status := CONSUMED)])
    else None
  }

  /** The transaction of releaseById: only the caller that observes ACTIVE to EXPIRED gives the units back.
      `items` were read before the transaction. */
  function CommitRelease(t: Tables, id: int, items: seq<Line>): Tables {
    if id in t.reservations && t.reservations[id].status.ACTIVE? then
      t.(reservations := t.reservations[id := t.reservations[id].(status := EXPIRED)],
         inv := ReleaseHolds(t.inv, items))
    else t
  }

  /** releaseById for each id in turn, without interference. */
  function SerialExpire(t: Tables, ids: seq<int>): Tables {
    if ids == [] then t
    else
      var id, mid := ids[|ids| - 1], SerialExpire(t, ids[..|ids| - 1]);
      if id in mid.reservations then CommitRelease(mid, id, mid.reservations[id].items) else mid
  }

  // ---------- The single statement of the expiry cron ----------

  /** A row of a GROUP BY with SUM. */
  datatype Group<K> = Group(key: K, qty: int)

  /** Index of the group of a key, or the number of groups. */
  function Find<K(==)>(groups: seq<Group<K>>, key: K): (i: nat)
    ensures i <= |groups|
    ensures i < |groups| ==> groups[i].key == key
    ensures forall j :: 0 <= j < i ==> groups[j].key != key
  {
    if groups == [] then 0
    else
      var i := Find(groups[..|groups| - 1], key);
      if i < |groups| - 1 then i
      else if groups[|groups| - 1].key == key then |groups| - 1
      else |groups|
  }

  function AddToGroup<K(==)>(groups: seq<Group<K>>, row: Group<K>): seq<Group<K>> {
    var i := Find(groups, row.key);
    if i < |groups| then groups[i := Group(row.key, groups[i].qty + row.qty)] else groups + [row]
  }

  function GroupBy<K(==)>(rows: seq<Group<K>>): seq<Group<K>> {
    if rows == [] then [] else AddToGroup(GroupBy(rows[..|rows| - 1]), rows[|rows| - 1])
  }

  /** The items of the reservations that the flip returns. */
  function ExpiredItems(reservations: map<int, Reservation>, ids: seq<int>): seq<Line> {
    if ids == [] then []
    else
      var id := ids[|ids| - 1];
      ExpiredItems(reservations, ids[..|ids| - 1])
      + if id in reservations && reservations[id].status.ACTIVE? then reservations[id].items else []
  }

  function Flip(reservations: map<int, Reservation>, ids: seq<int>): map<int, Reservation> {
    map id | id in reservations ::
      if id in ids && reservations[id].status.ACTIVE? then reservations[id].(status := EXPIRED) else reservations[id]
  }

  function ItemRows(lines: seq<Line>): seq<Group<Key>> {
    seq(|lines|, i requires 0 <= i < |lines| => Group(lines[i].AtKey(), lines[i].quantity))
  }

  function VariantRows(groups: seq<Group<Key>>): seq<Group<int>> {
    seq(|groups|, i requires 0 <= i < |groups| => Group(groups[i].key.variantId, groups[i].qty))
  }

  /** UPDATE "WarehouseInventory" FROM items_agg. */
  function UpdateRows(rows: map<Key, Row>, agg: seq<Group<Key>>): map<Key, Row> {
    map k | k in rows ::
      var i := Find(agg, k);
      if i < |agg| then rows[k].(reserved := Clamp(rows[k].reserved - agg[i].qty)) else rows[k]
  }

  /** UPDATE "Variant" FROM variant_agg. */
  function UpdateVariants(variants: map<int, Variant>, agg: seq<Group<int>>): map<int, Variant> {
    map v | v in variants ::
      var i := Find(agg, v);
      if i < |agg| then variants[v].(reservedStock := Clamp(variants[v].reservedStock - agg[i].qty)) else variants[v]
  }

  /** The common table expression: flip the ids, group their items by warehouse and variant, group those sums again
      by variant, and subtract each sum once. All its parts read the tables as they were. */
  function BatchExpire(t: Tables, ids: seq<int>): Tables {
    var itemsAgg := GroupBy(ItemRows(ExpiredItems(t.reservations, ids)));
    var variantAgg := GroupBy(VariantRows(itemsAgg));
    Tables(Inventory(UpdateRows(t.inv.rows, itemsAgg), UpdateVariants(t.inv.variants, variantAgg)),
           Flip(t.reservations, ids), t.orders)
  }

  /** A row the cron may select: overdue and still ACTIVE. */
  predicate Overdue(r: Reservation, now: int) {
    r.status.ACTIVE? && r.expiresAt <= now
  }

  const BATCH_LIMIT := 500

  /** What SELECT ... ORDER BY expiresAt LIMIT 500 FOR UPDATE SKIP LOCKED may return: unlocked overdue rows, earliest
      first, all of them unless the limit is reached. */
  ghost predicate Selected(reservations: map<int, Reservation>, now: int, locked: set<int>, ids: seq<int>) {
    && |ids| <= BATCH_LIMIT
    && (forall i, j :: 0 <= i < j < |ids| ==> ids[i] != ids[j])
    && (forall id :: id in ids ==> id in reservations && id !in locked && Overdue(reservations[id], now))
    && (forall id, other :: id in ids && other in reservations && other !in locked && other !in ids
                            && Overdue(reservations[other], now) ==>
                              reservations[id].expiresAt <= reservations[other].expiresAt)
    && (|ids| < BATCH_LIMIT ==>
          forall id :: id in reservations && id !in locked && Overdue(reservations[id], now) ==> id in ids)
  }
}
