/** Inventory movements: the effect of each SQL statement pair on WarehouseInventory and the Variant cache.

Every movement is written with the guards, clamps and early exits of the statements. The lemmas show that on sound
tables each of them is a plain `Move` of stock and reserved units, which is what the cache and the bounds survive.
*/
module InventoryMoves {
  import opened Sums
  import opened Schema

  function Stock(inv: Inventory, k: Key): int {
    if k in inv.rows then inv.rows[k].stock else 0
  }

  function Reserved(inv: Inventory, k: Key): int {
    if k in inv.rows then inv.rows[k].reserved else 0
  }

  function Clamp(n: int): int {
    if n < 0 then 0 else n
  }

  // ---------- What the statements do ----------

  /** INSERT of an empty row, ON CONFLICT DO NOTHING; inserting for an unknown variant violates the foreign key. */
  function EnsureRow(inv: Inventory, k: Key): Option<Inventory> {
    if k in inv.rows then Some(inv)
    else if k.variantId in inv.variants then Some(inv.(rows := inv.rows[k := Row(0, 0)]))
    else None
  }

  /** The conditional reserve of one line, with its cache update. */
  function ReserveLine(inv: Inventory, line: Line): Option<Inventory> {
    var k := line.AtKey();
    match EnsureRow(inv, k)
    case None => None
    case Some(i) =>
      var row := i.rows[k];
      if row.stock - row.reserved >= line.quantity then
        Some(AddToCache(i.(rows := i.rows[k := row.(reserved := row.reserved + line.quantity)]),
                        line.variantId, 0, line.quantity, 0))
      else None
  }

  /** An UPDATE of the cache columns of one variant; updates nothing when the variant is missing. */
  function AddToCache(inv: Inventory, v: int, stock: int, reserved: int, sold: int): Inventory {
    if v in inv.variants then
      var c := inv.variants[v];
      inv.(variants := inv.variants[v := Variant(c.stock + stock, c.reservedStock + reserved, c.soldCount + sold)])
    else inv
  }

  /** InventoryService.reserve at the DEFAULT warehouse. */
  function Reserve(inv: Inventory, v: int, qty: int, allowBackorder: bool): Option<Inventory> {
    if qty <= 0 then None
    else if !allowBackorder then ReserveLine(inv, Line(DEFAULT_WAREHOUSE, v, qty))
    else
      var k := Key(DEFAULT_WAREHOUSE, v);
      match EnsureRow(inv, k)
      case None => None
      case Some(i) =>
        var row := i.rows[k];
        Some(AddToCache(i.(rows := i.rows[k := Row(row.stock + qty, row.reserved + qty)]), v, qty, qty, 0))
  }

  /** The clamped UPDATE of a WarehouseInventory row; matches no row when it is missing. */
  function ClampRow(inv: Inventory, k: Key, qty: int): Inventory {
    if k in inv.rows then
      inv.(rows := inv.rows[k := inv.rows[k].(reserved := Clamp(inv.rows[k].reserved - qty))])
    else inv
  }

  /** The clamped UPDATE of a Variant row. */
  function ClampCache(inv: Inventory, v: int, qty: int): Inventory {
    if v in inv.variants then
      var c := inv.variants[v];
      inv.(variants := inv.variants[v := c.(reservedStock := Clamp(c.reservedStock - qty))])
    else inv
  }

  /** The two updates with which releaseById gives back one line of a reservation. */
  function ReleaseHold(inv: Inventory, line: Line): Inventory {
    ClampCache(ClampRow(inv, line.AtKey(), line.quantity), line.variantId, line.quantity)
  }

  /** InventoryService.release: skips the cache when there is no row to update. */
  function Release(inv: Inventory, v: int, qty: int): Inventory {
    if qty <= 0 || Key(DEFAULT_WAREHOUSE, v) !in inv.rows then inv
    else ReleaseHold(inv, Line(DEFAULT_WAREHOUSE, v, qty))
  }

  /** InventoryService.commitShipment: the units leave both stock and reserved. */
  function CommitShipment(inv: Inventory, v: int, qty: int): Option<Inventory> {
    var k := Key(DEFAULT_WAREHOUSE, v);
    if qty <= 0 then Some(inv)
    else if k in inv.rows && inv.rows[k].stock >= qty && inv.rows[k].reserved >= qty then
      var row := inv.rows[k];
      Some(AddToCache(inv.(rows := inv.rows[k := Row(row.stock - qty, row.reserved - qty)]), v, -qty, -qty, qty))
    else None
  }

  /** InventoryService.restock: units come back into stock. */
  function Restock(inv: Inventory, v: int, qty: int): Option<Inventory> {
    var k := Key(DEFAULT_WAREHOUSE, v);
    if qty <= 0 then Some(inv)
    else
      match EnsureRow(inv, k)
      case None => None
      case Some(i) =>
        Some(AddToCache(i.(rows := i.rows[k := i.rows[k].(stock := i.rows[k].stock + qty)]), v, qty, 0, 0))
  }

  // ---------- Loops over lines ----------

  function ReserveLines(inv: Inventory, lines: seq<Line>): Option<Inventory> {
    if lines == [] then Some(inv)
    else
      match ReserveLines(inv, lines[..|lines| - 1])
      case None => None
      case Some(i) => ReserveLine(i, lines[|lines| - 1])
  }

  function ReleaseHolds(inv: Inventory, lines: seq<Line>): Inventory {
    if lines == [] then inv
    else ReleaseHold(ReleaseHolds(inv, lines[..|lines| - 1]), lines[|lines| - 1])
  }

  function ReleaseLines(inv: Inventory, lines: seq<Line>): Inventory {
    if lines == [] then inv
    else
      var last := lines[|lines| - 1];
      Release(ReleaseLines(inv, lines[..|lines| - 1]), last.variantId, last.quantity)
  }

  function CommitLines(inv: Inventory, lines: seq<Line>): Option<Inventory> {
    if lines == [] then Some(inv)
    else
      var last := lines[|lines| - 1];
      match CommitLines(inv, lines[..|lines| - 1])
      case None => None
      case Some(i) => CommitShipment(i, last.variantId, last.quantity)
  }

  /** Units of the lines at one inventory key. */
  function QtyAt(lines: seq<Line>, k: Key): int {
    if lines == [] then 0
    else
      QtyAt(lines[..|lines| - 1], k)
      + if lines[|lines| - 1].AtKey() == k then lines[|lines| - 1].quantity else 0
  }

  predicate Positive(lines: seq<Line>) {
    forall i :: 0 <= i < |lines| ==> lines[i].quantity > 0
  }

  predicate AtDefault(lines: seq<Line>) {
    forall i :: 0 <= i < |lines| ==> lines[i].warehouseId == DEFAULT_WAREHOUSE
  }

  // ---------- Soundness: bounds, foreign keys, and the cache ----------

  ghost function StockOf(v: int): (Key, Row) -> int {
    (k: Key, row: Row) => if k.variantId == v then row.stock else 0
  }

  ghost function ReservedOf(v: int): (Key, Row) -> int {
    (k: Key, row: Row) => if k.variantId == v then row.reserved else 0
  }

  /** The cache columns are the sums over all warehouses (I-1, I-2). */
  ghost predicate Cached(inv: Inventory, v: int)
    requires v in inv.variants
  {
    && inv.variants[v].stock == SumRows(inv.rows, StockOf(v))
    && inv.variants[v].reservedStock == SumRows(inv.rows, ReservedOf(v))
  }

  ghost predicate Sound(inv: Inventory) {
    && (forall k :: k in inv.rows ==> 0 <= inv.rows[k].reserved <= inv.rows[k].stock)
    && (forall k :: k in inv.rows ==> k.variantId in inv.variants)
    && (forall v :: v in inv.variants ==> Cached(inv, v))
  }

  /** The cache obeys the CHECK constraints of Variant whenever the rows obey those of WarehouseInventory. */
  lemma CacheWithinBounds(inv: Inventory, v: int)
    requires Sound(inv) && v in inv.variants
    ensures 0 <= inv.variants[v].reservedStock <= inv.variants[v].stock
    ensures forall k :: k in inv.rows && k.variantId == v ==> inv.rows[k].reserved <= inv.variants[v].reservedStock
  {
    assert Cached(inv, v);
    SumRowsNonNegative(inv.rows, ReservedOf(v));
    SumRowsMonotone(inv.rows, ReservedOf(v), StockOf(v));
    forall k | k in inv.rows && k.variantId == v
      ensures inv.rows[k].reserved <= inv.variants[v].reservedStock
    {
      SumRowsAtLeastOne(inv.rows, ReservedOf(v), k);
    }
  }

  /** Adds to one row and to its cache by the same amounts, creating the row if need be. */
  function Move(inv: Inventory, k: Key, stock: int, reserved: int, sold: int): Inventory {
    AddToCache(inv.(rows := inv.rows[k := Row(Stock(inv, k) + stock, Reserved(inv, k) + reserved)]),
               k.variantId, stock, reserved, sold)
  }

  /** A move that stays within the bounds of its row keeps everything sound. */
  lemma MoveKeepsSound(inv: Inventory, k: Key, stock: int, reserved: int, sold: int)
    requires Sound(inv) && k.variantId in inv.variants
    requires 0 <= Reserved(inv, k) + reserved <= Stock(inv, k) + stock
    ensures Sound(Move(inv, k, stock, reserved, sold))
  {
    var out := Move(inv, k, stock, reserved, sold);
    forall v | v in out.variants
      ensures Cached(out, v)
    {
      assert Cached(inv, v);
      SumRowsUpdate(inv.rows, StockOf(v), k, out.rows[k]);
      SumRowsUpdate(inv.rows, ReservedOf(v), k, out.rows[k]);
    }
  }

  /** What a loop does to a column for each unit of its lines. */
  datatype Change = Gain | Keep | Lose {
    function Of(qty: int): int {
      match this
      case Gain => qty
      case Keep => 0
      case Lose => -qty
    }

    function Inverse(): Change {
      match this
      case Gain => Lose
      case Keep => Keep
      case Lose => Gain
    }
  }

  /** The move of one held line. */
  function MoveLine(inv: Inventory, line: Line, stock: Change, reserved: Change): Inventory {
    Move(inv, line.AtKey(), stock.Of(line.quantity), reserved.Of(line.quantity), stock.Inverse().Of(line.quantity))
  }

  lemma MoveLineKeepsSound(inv: Inventory, line: Line, stock: Change, reserved: Change)
    requires Sound(inv) && line.variantId in inv.variants
    requires 0 <= Reserved(inv, line.AtKey()) + reserved.Of(line.quantity)
               <= Stock(inv, line.AtKey()) + stock.Of(line.quantity)
    ensures Sound(MoveLine(inv, line, stock, reserved))
  {
    MoveKeepsSound(inv, line.AtKey(), stock.Of(line.quantity), reserved.Of(line.quantity),
                   stock.Inverse().Of(line.quantity));
  }

  lemma ReserveLineIsMove(inv: Inventory, line: Line)
    requires Sound(inv)
    ensures ReserveLine(inv, line)
         == if line.variantId in inv.variants
               && line.quantity <= Stock(inv, line.AtKey()) - Reserved(inv, line.AtKey())
            then Some(MoveLine(inv, line, Keep, Gain)) else None
  {
    var k := line.AtKey();
    if k !in inv.rows && k.variantId in inv.variants {
      assert inv.rows[k := Row(0, 0)][k := Row(0, line.quantity)] == inv.rows[k := Row(0, line.quantity)];
    }
  }

  lemma BackorderIsMove(inv: Inventory, v: int, qty: int)
    requires Sound(inv)
    ensures Reserve(inv, v, qty, true)
         == if qty > 0 && v in inv.variants then Some(Move(inv, Key(DEFAULT_WAREHOUSE, v), qty, qty, 0)) else None
  {
    var k := Key(DEFAULT_WAREHOUSE, v);
    if k !in inv.rows && v in inv.variants {
      assert inv.rows[k := Row(0, 0)][k := Row(qty, qty)] == inv.rows[k := Row(qty, qty)];
    }
  }

  lemma RestockIsMove(inv: Inventory, v: int, qty: int)
    requires Sound(inv)
    ensures Restock(inv, v, qty)
         == if qty <= 0 then Some(inv)
            else if v in inv.variants then Some(Move(inv, Key(DEFAULT_WAREHOUSE, v), qty, 0, 0))
            else None
  {
    var k := Key(DEFAULT_WAREHOUSE, v);
    if k !in inv.rows && v in inv.variants {
      assert inv.rows[k := Row(0, 0)][k := Row(qty, 0)] == inv.rows[k := Row(qty, 0)];
    }
  }

  /** Giving back no more than is reserved never meets a clamp, neither on the row nor on the cache. */
  lemma ReleaseIsMove(inv: Inventory, line: Line)
    requires Sound(inv)
    requires 0 < line.quantity <= Reserved(inv, line.AtKey())
    ensures line.variantId in inv.variants
    ensures 0 <= inv.rows[line.AtKey()].reserved - line.quantity
    ensures 0 <= inv.variants[line.variantId].reservedStock - line.quantity
    ensures ReleaseHold(inv, line) == MoveLine(inv, line, Keep, Lose)
  {
    CacheWithinBounds(inv, line.variantId);
  }

  lemma CommitIsMove(inv: Inventory, line: Line)
    requires Sound(inv) && line.quantity > 0 && line.warehouseId == DEFAULT_WAREHOUSE
    ensures CommitShipment(inv, line.variantId, line.quantity)
         == if line.quantity <= Reserved(inv, line.AtKey())
            then Some(MoveLine(inv, line, Lose, Lose)) else None
  {
  }

  // ---------- Loops over lines, by their totals ----------

  lemma {:induction false} QtyNonNegative(lines: seq<Line>, k: Key)
    requires Positive(lines)
    ensures 0 <= QtyAt(lines, k)
  {
    if lines != [] {
      QtyNonNegative(lines[..|lines| - 1], k);
    }
  }

  lemma {:induction false} QtyOfPrefix(lines: seq<Line>, n: nat, k: Key)
    requires Positive(lines) && n <= |lines|
    ensures QtyAt(lines[..n], k) <= QtyAt(lines, k)
    decreases |lines|
  {
    if n == |lines| {
      assert lines[..n] == lines;
    } else {
      var front := lines[..|lines| - 1];
      assert front[..n] == lines[..n];
      QtyOfPrefix(front, n, k);
    }
  }

  lemma {:induction false} QtyOfMember(lines: seq<Line>, i: nat)
    requires Positive(lines) && i < |lines|
    ensures 0 < QtyAt(lines, lines[i].AtKey())
  {
    var k := lines[i].AtKey();
    QtyOfPrefix(lines, i + 1, k);
    QtyNonNegative(lines[..i], k);
    assert lines[..i + 1][..i] == lines[..i];
  }

  /** The exact effect of a loop over lines: the change of stock and of reserved at every key. */
  ghost predicate Shifted(before: Inventory, after: Inventory, lines: seq<Line>, stock: Change, reserved: Change) {
    forall k :: && Stock(after, k) == Stock(before, k) + stock.Of(QtyAt(lines, k))
                && Reserved(after, k) == Reserved(before, k) + reserved.Of(QtyAt(lines, k))
  }

  /** Units of a variant on hand plus units sold, which only restocks and backorders change. */
  function Supply(inv: Inventory, v: int): int {
    if v in inv.variants then inv.variants[v].stock + inv.variants[v].soldCount else 0
  }

  ghost predicate SameSupply(before: Inventory, after: Inventory) {
    && after.variants.Keys == before.variants.Keys
    && forall v :: Supply(after, v) == Supply(before, v)
  }

  /** What a loop of moves over positive lines does, one line at a time. */
  lemma ShiftOneMore(before: Inventory, mid: Inventory, lines: seq<Line>, stock: Change, reserved: Change)
    requires lines != []
    requires Shifted(before, mid, lines[..|lines| - 1], stock, reserved)
    requires SameSupply(before, mid)
    ensures var after := MoveLine(mid, lines[|lines| - 1], stock, reserved);
            Shifted(before, after, lines, stock, reserved) && SameSupply(before, after)
  {
    var last := lines[|lines| - 1];
    var after := MoveLine(mid, last, stock, reserved);
    forall k
      ensures Stock(after, k) == Stock(before, k) + stock.Of(QtyAt(lines, k))
      ensures Reserved(after, k) == Reserved(before, k) + reserved.Of(QtyAt(lines, k))
    {
      assert Stock(mid, k) == Stock(before, k) + stock.Of(QtyAt(lines[..|lines| - 1], k));
    }
    forall v ensures Supply(after, v) == Supply(before, v) {
      assert Supply(mid, v) == Supply(before, v);
    }
  }

  ghost predicate Known(inv: Inventory, lines: seq<Line>) {
    forall i :: 0 <= i < |lines| ==> lines[i].variantId in inv.variants
  }

  lemma KnownOneMore(inv: Inventory, lines: seq<Line>)
    requires lines != []
    ensures Known(inv, lines)
       <==> Known(inv, lines[..|lines| - 1]) && lines[|lines| - 1].variantId in inv.variants
  {
    var front := lines[..|lines| - 1];
    assert forall i :: 0 <= i < |front| ==> front[i] == lines[i];
  }

  /** All lines can be reserved together: their variants exist and, per key, the lines fit the sellable units. */
  ghost predicate Sellable(inv: Inventory, lines: seq<Line>) {
    && Known(inv, lines)
    && (forall k :: QtyAt(lines, k) <= Stock(inv, k) - Reserved(inv, k))
  }

  lemma {:induction false} ReserveOneMore(inv: Inventory, mid: Inventory, lines: seq<Line>)
    requires lines != [] && Positive(lines) && Sound(mid)
    requires Shifted(inv, mid, lines[..|lines| - 1], Keep, Gain) && SameSupply(inv, mid)
    ensures var last := lines[|lines| - 1];
            var k := last.AtKey();
            var after := ReserveLine(mid, last);
            && (after.Some? <==>
                last.variantId in inv.variants && QtyAt(lines, k) <= Stock(inv, k) - Reserved(inv, k))
            && (after.Some? ==>
                && Sound(after.value) && Shifted(inv, after.value, lines, Keep, Gain)
                && SameSupply(inv, after.value))
  {
    var front, last := lines[..|lines| - 1], lines[|lines| - 1];
    var k := last.AtKey();
    ReserveLineIsMove(mid, last);
    assert Stock(mid, k) == Stock(inv, k) && Reserved(mid, k) == Reserved(inv, k) + QtyAt(front, k);
    assert QtyAt(lines, k) == QtyAt(front, k) + last.quantity;
    if ReserveLine(mid, last).Some? {
      MoveLineKeepsSound(mid, last, Keep, Gain);
      ShiftOneMore(inv, mid, lines, Keep, Gain);
    }
  }

  /** The reserve loop succeeds exactly when, per variant, all its lines together fit the sellable units; then it
      holds exactly those units and keeps the tables sound. */
  lemma {:induction false} ReserveLinesCorrect(inv: Inventory, lines: seq<Line>)
    requires Sound(inv) && Positive(lines)
    ensures ReserveLines(inv, lines).Some? <==> Sellable(inv, lines)
    ensures ReserveLines(inv, lines).Some? ==>
              && Sound(ReserveLines(inv, lines).value)
              && Shifted(inv, ReserveLines(inv, lines).value, lines, Keep, Gain)
              && SameSupply(inv, ReserveLines(inv, lines).value)
    decreases |lines|
  {
    if lines == [] {
      forall k ensures QtyAt(lines, k) <= Stock(inv, k) - Reserved(inv, k) {}
    } else {
      var front, last := lines[..|lines| - 1], lines[|lines| - 1];
      ReserveLinesCorrect(inv, front);
      KnownOneMore(inv, lines);
      if Sellable(inv, lines) {
        SellablePrefix(inv, lines);
        assert QtyAt(lines, last.AtKey()) <= Stock(inv, last.AtKey()) - Reserved(inv, last.AtKey());
      }
      if ReserveLines(inv, front).Some? {
        ReserveOneMore(inv, ReserveLines(inv, front).value, lines);
        if ReserveLines(inv, lines).Some? {
          forall k ensures QtyAt(lines, k) <= Stock(inv, k) - Reserved(inv, k) {
            assert QtyAt(front, k) <= Stock(inv, k) - Reserved(inv, k);
          }
        }
      }
    }
  }

  lemma SellablePrefix(inv: Inventory, lines: seq<Line>)
    requires lines != [] && Positive(lines) && Sellable(inv, lines)
    ensures Sellable(inv, lines[..|lines| - 1])
  {
    KnownOneMore(inv, lines);
    forall k ensures QtyAt(lines[..|lines| - 1], k) <= Stock(inv, k) - Reserved(inv, k) {
      assert QtyAt(lines, k) <= Stock(inv, k) - Reserved(inv, k);
      QtyOfPrefix(lines, |lines| - 1, k);
    }
  }

  /** Every line holds what it says. */
  ghost predicate Covered(inv: Inventory, lines: seq<Line>) {
    forall k :: QtyAt(lines, k) <= Reserved(inv, k)
  }

  lemma CoveredPrefix(inv: Inventory, lines: seq<Line>)
    requires lines != [] && Positive(lines) && Covered(inv, lines)
    ensures Positive(lines[..|lines| - 1]) && Covered(inv, lines[..|lines| - 1])
  {
    forall k ensures QtyAt(lines[..|lines| - 1], k) <= Reserved(inv, k) {
      assert QtyAt(lines, k) <= Reserved(inv, k);
      QtyOfPrefix(lines, |lines| - 1, k);
    }
  }

  lemma {:induction false} ReleaseOneMore(inv: Inventory, mid: Inventory, lines: seq<Line>)
    requires lines != [] && Positive(lines) && Sound(mid)
    requires Shifted(inv, mid, lines[..|lines| - 1], Keep, Lose) && SameSupply(inv, mid)
    requires QtyAt(lines, lines[|lines| - 1].AtKey()) <= Reserved(inv, lines[|lines| - 1].AtKey())
    ensures var last := lines[|lines| - 1];
            var after := ReleaseHold(mid, last);
            && Sound(after) && Shifted(inv, after, lines, Keep, Lose) && SameSupply(inv, after)
            && last.AtKey() in mid.rows && 0 <= mid.rows[last.AtKey()].reserved - last.quantity
            && last.variantId in mid.variants && 0 <= mid.variants[last.variantId].reservedStock - last.quantity
  {
    var front, last := lines[..|lines| - 1], lines[|lines| - 1];
    var k := last.AtKey();
    assert Reserved(mid, k) == Reserved(inv, k) - QtyAt(front, k);
    assert QtyAt(lines, k) == QtyAt(front, k) + last.quantity;
    ReleaseIsMove(mid, last);
    MoveLineKeepsSound(mid, last, Keep, Lose);
    ShiftOneMore(inv, mid, lines, Keep, Lose);
  }

  /** Giving back held lines: exact, sound, and clamp-free at every one of its updates. */
  lemma {:induction false} ReleaseHoldsCorrect(inv: Inventory, lines: seq<Line>)
    requires Sound(inv) && Positive(lines) && Covered(inv, lines)
    ensures Sound(ReleaseHolds(inv, lines))
    ensures Shifted(inv, ReleaseHolds(inv, lines), lines, Keep, Lose)
    ensures SameSupply(inv, ReleaseHolds(inv, lines))
    ensures ClampFree(inv, lines)
    decreases |lines|
  {
    if lines != [] {
      CoveredPrefix(inv, lines);
      ReleaseHoldsCorrect(inv, lines[..|lines| - 1]);
      assert QtyAt(lines, lines[|lines| - 1].AtKey()) <= Reserved(inv, lines[|lines| - 1].AtKey());
      ReleaseOneMore(inv, ReleaseHolds(inv, lines[..|lines| - 1]), lines);
    }
  }

  /** None of the GREATEST(0, ...) expressions evaluated by the release loop has a negative argument. */
  ghost predicate ClampFree(inv: Inventory, lines: seq<Line>) {
    lines == [] ||
    var mid, last := ReleaseHolds(inv, lines[..|lines| - 1]), lines[|lines| - 1];
    && ClampFree(inv, lines[..|lines| - 1])
    && last.AtKey() in mid.rows && 0 <= mid.rows[last.AtKey()].reserved - last.quantity
    && last.variantId in mid.variants && 0 <= mid.variants[last.variantId].reservedStock - last.quantity
  }

  /** On held lines, InventoryService.release never takes its early exits: it is the reservation's release. */
  lemma {:induction false} ReleaseLinesIsReleaseHolds(inv: Inventory, lines: seq<Line>)
    requires Sound(inv) && Positive(lines) && AtDefault(lines) && Covered(inv, lines)
    ensures ReleaseLines(inv, lines) == ReleaseHolds(inv, lines)
    decreases |lines|
  {
    if lines != [] {
      var front, last := lines[..|lines| - 1], lines[|lines| - 1];
      forall k ensures QtyAt(front, k) <= Reserved(inv, k) {
        QtyOfPrefix(lines, |front|, k);
        assert QtyAt(lines, k) <= Reserved(inv, k);
      }
      ReleaseLinesIsReleaseHolds(inv, front);
      ReleaseHoldsCorrect(inv, front);
      var k := last.AtKey();
      assert QtyAt(lines, k) <= Reserved(inv, k);
      assert Reserved(ReleaseHolds(inv, front), k) == Reserved(inv, k) - QtyAt(front, k);
    }
  }

  lemma {:induction false} CommitOneMore(inv: Inventory, mid: Inventory, lines: seq<Line>)
    requires lines != [] && Positive(lines) && AtDefault(lines) && Sound(mid)
    requires Shifted(inv, mid, lines[..|lines| - 1], Lose, Lose) && SameSupply(inv, mid)
    ensures var last := lines[|lines| - 1];
            var after := CommitShipment(mid, last.variantId, last.quantity);
            && (after.Some? <==> QtyAt(lines, last.AtKey()) <= Reserved(inv, last.AtKey()))
            && (after.Some? ==>
                && Sound(after.value) && Shifted(inv, after.value, lines, Lose, Lose) && SameSupply(inv, after.value))
  {
    var front, last := lines[..|lines| - 1], lines[|lines| - 1];
    var k := last.AtKey();
    CommitIsMove(mid, last);
    assert Reserved(mid, k) == Reserved(inv, k) - QtyAt(front, k);
    assert QtyAt(lines, k) == QtyAt(front, k) + last.quantity;
    if last.quantity <= Reserved(mid, k) {
      MoveLineKeepsSound(mid, last, Lose, Lose);
      ShiftOneMore(inv, mid, lines, Lose, Lose);
    }
  }

  /** The shipment loop succeeds exactly when every line is held; then it moves exactly those units out. */
  lemma {:induction false} CommitLinesCorrect(inv: Inventory, lines: seq<Line>)
    requires Sound(inv) && Positive(lines) && AtDefault(lines)
    ensures CommitLines(inv, lines).Some? <==> Covered(inv, lines)
    ensures CommitLines(inv, lines).Some? ==>
              && Sound(CommitLines(inv, lines).value)
              && Shifted(inv, CommitLines(inv, lines).value, lines, Lose, Lose)
              && SameSupply(inv, CommitLines(inv, lines).value)
    decreases |lines|
  {
    if lines == [] {
      forall k ensures QtyAt(lines, k) <= Reserved(inv, k) {}
    } else {
      var front, last := lines[..|lines| - 1], lines[|lines| - 1];
      CommitLinesCorrect(inv, front);
      if Covered(inv, lines) {
        CoveredPrefix(inv, lines);
        assert QtyAt(lines, last.AtKey()) <= Reserved(inv, last.AtKey());
      }
      if CommitLines(inv, front).Some? {
        CommitOneMore(inv, CommitLines(inv, front).value, lines);
        if CommitLines(inv, lines).Some? {
          forall j ensures QtyAt(lines, j) <= Reserved(inv, j) {
            assert QtyAt(front, j) <= Reserved(inv, j);
          }
        }
      }
    }
  }
}
