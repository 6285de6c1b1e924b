/** InventoryService: the statements of each movement, run on a transaction client. A false result is a throw; the
    caller's transaction rolls back whatever was written before it. */
module InventoryService {
  import opened Schema
  import Moves = InventoryMoves

  method EnsureRow(tx: Database, k: Key) returns (ok: bool)
    modifies tx`rows
    ensures ok <==> Moves.EnsureRow(old(tx.Inv()), k).Some?
    ensures ok ==> tx.Inv() == Moves.EnsureRow(old(tx.Inv()), k).value
  {
    if k in tx.rows {
      return true;
    }
    if k.variantId !in tx.variants {
      return false;
    }
    tx.rows := tx.rows[k := Row(0, 0)];
    return true;
  }

  method AddToCache(tx: Database, v: int, stock: int, reserved: int, sold: int)
    modifies tx`variants
    ensures tx.Inv() == Moves.AddToCache(old(tx.Inv()), v, stock, reserved, sold)
  {
    if v in tx.variants {
      var c := tx.variants[v];
      tx.variants := tx.variants[v := Variant(c.stock + stock, c.reservedStock + reserved, c.soldCount + sold)];
    }
  }

  method ReserveLine(tx: Database, line: Line) returns (ok: bool)
    modifies tx`rows, tx`variants
    ensures ok <==> Moves.ReserveLine(old(tx.Inv()), line).Some?
    ensures ok ==> tx.Inv() == Moves.ReserveLine(old(tx.Inv()), line).value
  {
    var k := line.AtKey();
    ok := EnsureRow(tx, k);
    if !ok || tx.rows[k].stock - tx.rows[k].reserved < line.quantity {
      return false;
    }
    tx.rows := tx.rows[k := tx.rows[k].(reserved := tx.rows[k].reserved + line.quantity)];
    AddToCache(tx, line.variantId, 0, line.quantity, 0);
  }

  method Reserve(tx: Database, v: int, qty: int, allowBackorder: bool) returns (ok: bool)
    modifies tx`rows, tx`variants
    ensures ok <==> Moves.Reserve(old(tx.Inv()), v, qty, allowBackorder).Some?
    ensures ok ==> tx.Inv() == Moves.Reserve(old(tx.Inv()), v, qty, allowBackorder).value
  {
    if qty <= 0 {
      return false;
    }
    if !allowBackorder {
      ok := ReserveLine(tx, Line(DEFAULT_WAREHOUSE, v, qty));
      return;
    }
    var k := Key(DEFAULT_WAREHOUSE, v);
    ok := EnsureRow(tx, k);
    if ok {
      tx.rows := tx.rows[k := Row(tx.rows[k].stock + qty, tx.rows[k].reserved + qty)];
      AddToCache(tx, v, qty, qty, 0);
    }
  }

  method ReleaseHold(tx: Database, line: Line)
    modifies tx`rows, tx`variants
    ensures tx.Inv() == Moves.ReleaseHold(old(tx.Inv()), line)
  {
    var k, v := line.AtKey(), line.variantId;
    if k in tx.rows {
      tx.rows := tx.rows[k := tx.rows[k].(reserved := Moves.Clamp(tx.rows[k].reserved - line.quantity))];
    }
    if v in tx.variants {
      var left := Moves.Clamp(tx.variants[v].reservedStock - line.quantity);
      tx.variants := tx.variants[v := tx.variants[v].(reservedStock := left)];
    }
  }

  method Release(tx: Database, v: int, qty: int)
    modifies tx`rows, tx`variants
    ensures tx.Inv() == Moves.Release(old(tx.Inv()), v, qty)
  {
    if qty <= 0 || Key(DEFAULT_WAREHOUSE, v) !in tx.rows {
      return;
    }
    ReleaseHold(tx, Line(DEFAULT_WAREHOUSE, v, qty));
  }

  method CommitShipment(tx: Database, v: int, qty: int) returns (ok: bool)
    modifies tx`rows, tx`variants
    ensures ok <==> Moves.CommitShipment(old(tx.Inv()), v, qty).Some?
    ensures ok ==> tx.Inv() == Moves.CommitShipment(old(tx.Inv()), v, qty).value
  {
    if qty <= 0 {
      return true;
    }
    var k := Key(DEFAULT_WAREHOUSE, v);
    if k !in tx.rows || tx.rows[k].stock < qty || tx.rows[k].reserved < qty {
      return false;
    }
    tx.rows := tx.rows[k := Row(tx.rows[k].stock - qty, tx.rows[k].reserved - qty)];
    AddToCache(tx, v, -qty, -qty, qty);
    return true;
  }

  method Restock(tx: Database, v: int, qty: int) returns (ok: bool)
    modifies tx`rows, tx`variants
    ensures ok <==> Moves.Restock(old(tx.Inv()), v, qty).Some?
    ensures ok ==> tx.Inv() == Moves.Restock(old(tx.Inv()), v, qty).value
  {
    if qty <= 0 {
      return true;
    }
    var k := Key(DEFAULT_WAREHOUSE, v);
    ok := EnsureRow(tx, k);
    if ok {
      tx.rows := tx.rows[k := tx.rows[k].(stock := tx.rows[k].stock + qty)];
      AddToCache(tx, v, qty, 0, 0);
    }
  }
}
