/** CartReservationService on the database and the advisory Redis gate. */
module CartReservationService {
  import opened Schema
  import opened InventoryMoves
  import Reservations
  import Orders
  import InventoryService
  import StoreMachine
  import BatchExpiry

  /** The Redis counters that turn away part of a flash-sale crowd. A call may fail, its reply may be lost after the
      script ran, and a counter may expire, unless the gate is `reliable`. */
  class ReserveGate {
    const reliable: bool
    var counters: map<Key, int>

    constructor (reliable: bool)
      ensures this.reliable == reliable && counters == map[]
    {
      this.reliable := reliable;
      counters := map[];
    }

    /** None means no answer: no counter, or no Redis. However unreliable, the gate never says yes without the tokens,
        never says no with them, and touches no other counter. */
    method TryReserve(k: Key, qty: int) returns (answer: Option<bool>)
      modifies this
      ensures answer == Some(true) ==>
                && k in old(counters) && old(counters)[k] >= qty
                && counters == old(counters)[k := old(counters)[k] - qty]
      ensures answer == Some(false) ==> k in old(counters) && old(counters)[k] < qty && counters == old(counters)
      ensures answer.None? ==>
                || counters == old(counters) || counters == old(counters) - {k}
                || (k in old(counters) && old(counters)[k] >= qty
                    && counters == old(counters)[k := old(counters)[k] - qty])
      ensures reliable ==>
                && (answer.None? <==> k !in old(counters))
                && (answer.Some? ==> (answer.value <==> old(counters)[k] >= qty))
                && counters == if answer == Some(true) then old(counters)[k := old(counters)[k] - qty]
                               else old(counters)
    {
      var down, lost, expired: bool := *, *, *;
      if !reliable && down {
        return None;
      }
      if !reliable && expired {
        counters := counters - {k};
      }
      if k !in counters {
        return None;
      }
      if counters[k] < qty {
        answer := Some(false);
      } else {
        counters := counters[k := counters[k] - qty];
        answer := Some(true);
      }
      if !reliable && lost {
        answer := None;
      }
    }

    /** Gives tokens back to an existing counter, if Redis answers; never creates one. */
    method Release(k: Key, qty: int)
      modifies this
      ensures || counters == old(counters)
              || (k in old(counters) && counters == old(counters)[k := old(counters)[k] + qty])
      ensures reliable ==>
                counters == if k in old(counters) then old(counters)[k := old(counters)[k] + qty] else old(counters)
    {
      var down: bool := *;
      if (reliable || !down) && k in counters {
        counters := counters[k := counters[k] + qty];
      }
    }

    /** SET ... NX, if Redis answers; keeps an existing counter. */
    method Init(k: Key, value: int)
      modifies this
      ensures || counters == old(counters)
              || (k !in old(counters) && counters == old(counters)[k := value])
      ensures reliable ==>
                counters == if k in old(counters) then old(counters) else old(counters)[k := value]
    {
      var down: bool := *;
      if (reliable || !down) && k !in counters {
        counters := counters[k := value];
      }
    }
  }

  datatype Verdict = Created | EmptyCart | NoStock(index: nat) | GateRejected(index: nat)

  // ---------- What a reliable gate counts ----------

  function Left(inv: Inventory, k: Key): int {
    Stock(inv, k) - Reserved(inv, k)
  }

  /** The tokens of a key: a cold counter is filled from the sellable units when it is first asked for. */
  function Tokens(counters: map<Key, int>, inv: Inventory, k: Key): int {
    if k in counters then counters[k] else Left(inv, k)
  }

  ghost predicate Seen(lines: seq<Line>, n: nat, k: Key)
    requires n <= |lines|
  {
    exists i :: 0 <= i < n && lines[i].AtKey() == k
  }

  /** The counters after the gate was asked for the first `seen` lines and gave out the tokens of the first `taken`. */
  ghost predicate Counted(before: map<Key, int>, inv: Inventory, lines: seq<Line>, seen: nat, taken: nat,
                          after: map<Key, int>)
  {
    && seen <= |lines| && taken <= |lines|
    && (forall k :: k in after <==> k in before || Seen(lines, seen, k))
    && (forall k :: k in after ==> after[k] == Tokens(before, inv, k) - QtyAt(lines[..taken], k))
  }

  lemma {:induction false} UnseenHasNoUnits(lines: seq<Line>, n: nat, k: Key)
    requires n <= |lines| && !Seen(lines, n, k)
    ensures QtyAt(lines[..n], k) == 0
  {
    if n > 0 {
      assert lines[..n][..n - 1] == lines[..n - 1];
      UnseenHasNoUnits(lines, n - 1, k);
    }
  }

  lemma {:induction false} ReservedLeft(inv: Inventory, lines: seq<Line>, k: Key)
    requires ReserveLines(inv, lines).Some?
    ensures Left(ReserveLines(inv, lines).value, k) == Left(inv, k) - QtyAt(lines, k)
    decreases |lines|
  {
    if lines != [] {
      ReservedLeft(inv, lines[..|lines| - 1], k);
    }
  }

  /** What the gate has for line i after the lines before it, whether its counter was filled by then or is cold. */
  lemma {:induction false} TokensAtLine(before: map<Key, int>, inv: Inventory, lines: seq<Line>, i: nat,
                                        mid: map<Key, int>)
    requires i < |lines| && Counted(before, inv, lines, i, i, mid) && ReserveLines(inv, lines[..i]).Some?
    ensures var k := lines[i].AtKey();
            Tokens(mid, ReserveLines(inv, lines[..i]).value, k) == Tokens(before, inv, k) - QtyAt(lines[..i], k)
  {
    var k := lines[i].AtKey();
    if k !in mid {
      UnseenHasNoUnits(lines, i, k);
      ReservedLeft(inv, lines[..i], k);
    }
  }

  /** Line i is asked for: its counter is filled if need be, and its tokens are taken unless it is turned away. */
  lemma {:induction false} CountOneMore(before: map<Key, int>, inv: Inventory, lines: seq<Line>, i: nat,
                                        mid: map<Key, int>, passed: bool)
    requires i < |lines| && Counted(before, inv, lines, i, i, mid) && ReserveLines(inv, lines[..i]).Some?
    ensures var k := lines[i].AtKey();
            var tokens := Tokens(mid, ReserveLines(inv, lines[..i]).value, k);
            Counted(before, inv, lines, i + 1, if passed then i + 1 else i,
                    mid[k := if passed then tokens - lines[i].quantity else tokens])
  {
    TokensAtLine(before, inv, lines, i, mid);
    assert lines[..i + 1][..i] == lines[..i];
    forall k
      ensures Seen(lines, i + 1, k) <==> Seen(lines, i, k) || k == lines[i].AtKey()
    {
    }
    assert Seen(lines, i + 1, lines[i].AtKey());
  }

  /** Asks the gate for one flash-sale line, filling a cold counter from the sellable units once. */
  method PassGate(db: Database, gate: ReserveGate, line: Line) returns (rejected: bool, consumed: bool)
    modifies gate
    ensures rejected ==> !consumed
    ensures gate.reliable ==>
              var tokens := Tokens(old(gate.counters), db.Inv(), line.AtKey());
              && (rejected <==> tokens < line.quantity) && (consumed <==> !rejected)
              && gate.counters
                 == old(gate.counters)[line.AtKey() := if consumed then tokens - line.quantity else tokens]
  {
    var answer := gate.TryReserve(line.AtKey(), line.quantity);
    if answer.None? {
      gate.Init(line.AtKey(), Left(db.Inv(), line.AtKey()));
      answer := gate.TryReserve(line.AtKey(), line.quantity);
    }
    rejected := answer == Some(false);
    consumed := answer == Some(true);
  }

  /** Gives back the tokens of the consumed lines. */
  method ReleaseGates(gate: ReserveGate, consumed: seq<Line>)
    modifies gate
    ensures consumed == [] ==> gate.counters == old(gate.counters)
    ensures gate.reliable && (forall i :: 0 <= i < |consumed| ==> consumed[i].AtKey() in old(gate.counters)) ==>
              && gate.counters.Keys == old(gate.counters).Keys
              && forall k :: k in gate.counters ==> gate.counters[k] == old(gate.counters)[k] + QtyAt(consumed, k)
  {
    ghost var start := gate.counters;
    ghost var filled := forall i :: 0 <= i < |consumed| ==> consumed[i].AtKey() in start;
    var i := 0;
    while i < |consumed|
      invariant 0 <= i <= |consumed|
      invariant i == 0 ==> gate.counters == start
      invariant gate.reliable && filled ==>
                  && gate.counters.Keys == start.Keys
                  && forall k :: k in start ==> gate.counters[k] == start[k] + QtyAt(consumed[..i], k)
    {
      assert consumed[..i + 1][..i] == consumed[..i];
      gate.Release(consumed[i].AtKey(), consumed[i].quantity);
      i := i + 1;
    }
    assert consumed[..i] == consumed;
  }

  lemma {:induction false} NoPrefixNoWhole(inv: Inventory, lines: seq<Line>, n: nat)
    requires n <= |lines| && ReserveLines(inv, lines[..n]).None?
    ensures ReserveLines(inv, lines).None?
    decreases |lines|
  {
    if n == |lines| {
      assert lines[..n] == lines;
    } else {
      assert lines[..|lines| - 1][..n] == lines[..n];
      NoPrefixNoWhole(inv, lines[..|lines| - 1], n);
    }
  }

  datatype LineVerdict = Held | OutOfStock | TurnedAway

  /** One round of the loop: ensure the row, ask the gate, reserve conditionally, and update the cache. */
  method ReserveCartLine(db: Database, gate: ReserveGate, line: Line, isFlash: bool)
    returns (verdict: LineVerdict, consumed: bool)
    modifies db`rows, db`variants, gate
    ensures verdict.Held? ==> ReserveLine(old(db.Inv()), line) == Some(db.Inv())
    ensures verdict.OutOfStock? ==> ReserveLine(old(db.Inv()), line).None?
    ensures db.variants.Keys == old(db.variants.Keys)
    ensures !isFlash ==> !verdict.TurnedAway? && !consumed && gate.counters == old(gate.counters)
    ensures isFlash && gate.reliable && line.variantId in old(db.variants) ==>
              var tokens := Tokens(old(gate.counters), old(db.Inv()), line.AtKey());
              && (verdict.TurnedAway? <==> tokens < line.quantity) && (consumed <==> !verdict.TurnedAway?)
              && gate.counters
                 == old(gate.counters)[line.AtKey() := if consumed then tokens - line.quantity else tokens]
  {
    var k := line.AtKey();
    consumed := false;
    var known := InventoryService.EnsureRow(db, k);
    if !known {
      return OutOfStock, false;
    }
    if isFlash {
      var rejected;
      rejected, consumed := PassGate(db, gate, line);
      if rejected {
        return TurnedAway, false;
      }
    }
    if db.rows[k].stock - db.rows[k].reserved < line.quantity {
      return OutOfStock, consumed;
    }
    db.rows := db.rows[k := db.rows[k].(reserved := db.rows[k].reserved + line.quantity)];
    InventoryService.AddToCache(db, line.variantId, 0, line.quantity, 0);
    verdict := Held;
  }

  // ---------- Where createReservation stops ----------

  /** A flash cart of known variants before a reliable gate, whichever of its counters are cold. */
  ghost predicate Settleable(gate: ReserveGate, variants: map<int, Variant>, lines: seq<Line>, isFlash: bool)
    reads gate
  {
    && isFlash && gate.reliable
    && forall i :: 0 <= i < |lines| ==> lines[i].variantId in variants
  }

  /** The gate still has the tokens of line i after giving out those of the lines before it. */
  predicate GatePasses(counters: map<Key, int>, inv: Inventory, lines: seq<Line>, i: nat)
    requires i < |lines|
  {
    Tokens(counters, inv, lines[i].AtKey()) - QtyAt(lines[..i], lines[i].AtKey()) >= lines[i].quantity
  }

  /** The gate and Postgres both let the first n lines through. */
  ghost predicate Through(counters: map<Key, int>, inv: Inventory, lines: seq<Line>, n: nat) {
    && n <= |lines| && ReserveLines(inv, lines[..n]).Some?
    && forall i :: 0 <= i < n ==> GatePasses(counters, inv, lines, i)
  }

  /** Line j is the first that does not get through, and it is the gate that turns it away. */
  ghost predicate StopsAtGate(counters: map<Key, int>, inv: Inventory, lines: seq<Line>, j: nat) {
    j < |lines| && Through(counters, inv, lines, j) && !GatePasses(counters, inv, lines, j)
  }

  /** Line j is the first that does not get through, and it is Postgres that cannot hold it. */
  ghost predicate StopsAtStock(counters: map<Key, int>, inv: Inventory, lines: seq<Line>, j: nat) {
    && j < |lines| && Through(counters, inv, lines, j) && GatePasses(counters, inv, lines, j)
    && ReserveLines(inv, lines[..j + 1]).None?
  }

  /** The verdict of a reliable gate and of Postgres on the counters and tables before the call. */
  ghost predicate Expected(counters: map<Key, int>, inv: Inventory, lines: seq<Line>, verdict: Verdict) {
    match verdict
    case Created => lines != [] && Through(counters, inv, lines, |lines|)
    case EmptyCart => lines == []
    case NoStock(j) => StopsAtStock(counters, inv, lines, j)
    case GateRejected(j) => StopsAtGate(counters, inv, lines, j)
  }

  lemma {:induction false} NothingPast(counters: map<Key, int>, inv: Inventory, lines: seq<Line>, i: nat, n: nat)
    requires i < |lines| && (!GatePasses(counters, inv, lines, i) || ReserveLines(inv, lines[..i + 1]).None?)
    requires i < n <= |lines|
    ensures !Through(counters, inv, lines, n)
  {
    if ReserveLines(inv, lines[..i + 1]).None? {
      assert lines[..n][..i + 1] == lines[..i + 1];
      NoPrefixNoWhole(inv, lines[..n], i + 1);
    }
  }

  /** Only one verdict is expected. */
  lemma {:induction false} ExpectedIsUnique(counters: map<Key, int>, inv: Inventory, lines: seq<Line>, a: Verdict,
                                            b: Verdict)
    requires Expected(counters, inv, lines, a) && Expected(counters, inv, lines, b)
    ensures a == b
  {
    var i := StopOf(lines, a);
    var j := StopOf(lines, b);
    if i < j {
      NothingPast(counters, inv, lines, i, j);
    } else if j < i {
      NothingPast(counters, inv, lines, j, i);
    }
  }

  /** The lines that got through. */
  function StopOf(lines: seq<Line>, verdict: Verdict): nat {
    match verdict
    case NoStock(j) => j
    case GateRejected(j) => j
    case _ => |lines|
  }

  /** The tokens after the call: those of a created reservation are out, those of a cart that Postgres refused are back,
      and those of the lines before a turned away one stay out. */
  ghost predicate TokensSettled(before: map<Key, int>, inv: Inventory, lines: seq<Line>, verdict: Verdict,
                                after: map<Key, int>)
  {
    match verdict
    case Created => Counted(before, inv, lines, |lines|, |lines|, after)
    case EmptyCart => after == before
    case NoStock(j) => Counted(before, inv, lines, j + 1, 0, after)
    case GateRejected(j) => Counted(before, inv, lines, j + 1, j, after)
  }

  /** What one round of the loop decides. */
  lemma {:induction false} LineSettles(before: map<Key, int>, inv: Inventory, lines: seq<Line>, i: nat,
                                       mid: map<Key, int>, held: LineVerdict, took: bool, after: map<Key, int>)
    requires i < |lines| && Through(before, inv, lines, i) && Counted(before, inv, lines, i, i, mid)
    requires var now, k := ReserveLines(inv, lines[..i]).value, lines[i].AtKey();
             && (held.TurnedAway? <==> Tokens(mid, now, k) < lines[i].quantity) && (took <==> !held.TurnedAway?)
             && after == mid[k := if took then Tokens(mid, now, k) - lines[i].quantity else Tokens(mid, now, k)]
             && (held.Held? ==> ReserveLine(now, lines[i]).Some?)
             && (held.OutOfStock? ==> ReserveLine(now, lines[i]).None?)
    ensures Counted(before, inv, lines, i + 1, if took then i + 1 else i, after)
    ensures match held
            case Held => Through(before, inv, lines, i + 1)
            case OutOfStock => StopsAtStock(before, inv, lines, i)
            case TurnedAway => StopsAtGate(before, inv, lines, i)
  {
    TokensAtLine(before, inv, lines, i, mid);
    CountOneMore(before, inv, lines, i, mid, took);
    assert lines[..i + 1][..i] == lines[..i];
  }

  /** The loop of createReservation, before anything is given back. */
  method ReserveCart(db: Database, gate: ReserveGate, lines: seq<Line>, isFlash: bool)
    returns (verdict: Verdict, consumed: seq<Line>)
    requires lines != []
    modifies db`rows, db`variants, gate
    ensures !verdict.EmptyCart?
    ensures verdict.Created? ==> ReserveLines(old(db.Inv()), lines) == Some(db.Inv())
    ensures verdict.NoStock? ==> ReserveLines(old(db.Inv()), lines).None?
    ensures !isFlash ==> !verdict.GateRejected? && consumed == [] && gate.counters == old(gate.counters)
    ensures old(Settleable(gate, db.variants, lines, isFlash)) ==>
              && Expected(old(gate.counters), old(db.Inv()), lines, verdict)
              && (if verdict.NoStock? then
                    && consumed == lines[..verdict.index + 1]
                    && Counted(old(gate.counters), old(db.Inv()), lines, verdict.index + 1, verdict.index + 1,
                               gate.counters)
                  else TokensSettled(old(gate.counters), old(db.Inv()), lines, verdict, gate.counters))
  {
    ghost var start, before := db.Inv(), gate.counters;
    ghost var settled := Settleable(gate, db.variants, lines, isFlash);
    consumed := [];
    var i := 0;
    while i < |lines|
      invariant 0 <= i <= |lines|
      invariant ReserveLines(start, lines[..i]) == Some(db.Inv())
      invariant db.variants.Keys == start.variants.Keys
      invariant !isFlash ==> gate.counters == before && consumed == []
      invariant settled ==> consumed == lines[..i] && Counted(before, start, lines, i, i, gate.counters)
      invariant settled ==> Through(before, start, lines, i)
    {
      assert lines[..i + 1][..i] == lines[..i] && lines[..i + 1] == lines[..i] + [lines[i]];
      ghost var mid := gate.counters;
      var held, took := ReserveCartLine(db, gate, lines[i], isFlash);
      if settled {
        LineSettles(before, start, lines, i, mid, held, took, gate.counters);
      }
      consumed := if took then consumed + [lines[i]] else consumed;
      if held.TurnedAway? {
        return GateRejected(i), consumed;
      }
      if held.OutOfStock? {
        NoPrefixNoWhole(start, lines, i + 1);
        return NoStock(i), consumed;
      }
      i := i + 1;
    }
    assert lines[..i] == lines;
    verdict := Created;
  }

  /** The tokens that are out are those of a created reservation, or none. */
  ghost predicate TokensBalance(before: map<Key, int>, inv: Inventory, lines: seq<Line>, verdict: Verdict,
                                after: map<Key, int>)
  {
    if verdict.Created? then Counted(before, inv, lines, |lines|, |lines|, after)
    else forall k :: k in after ==> after[k] == Tokens(before, inv, k)
  }

  lemma {:induction false} LaterRejectionKeepsTokens(before: map<Key, int>, inv: Inventory, lines: seq<Line>,
                                                     verdict: Verdict, after: map<Key, int>)
    requires Positive(lines) && TokensSettled(before, inv, lines, verdict, after)
    ensures TokensBalance(before, inv, lines, verdict, after) <==> !(verdict.GateRejected? && verdict.index > 0)
  {
    if verdict.GateRejected? && verdict.index > 0 {
      var taken := lines[..verdict.index];
      assert taken[0] == lines[0];
      QtyOfMember(taken, 0);
      assert Seen(lines, verdict.index + 1, lines[0].AtKey());
      assert after[lines[0].AtKey()] < Tokens(before, inv, lines[0].AtKey());
    }
  }

  /** No counter of the cart is behind Postgres; a cold counter never is. */
  ghost predicate NotBehind(counters: map<Key, int>, inv: Inventory, lines: seq<Line>) {
    forall i :: 0 <= i < |lines| ==> Left(inv, lines[i].AtKey()) <= Tokens(counters, inv, lines[i].AtKey())
  }

  /** Such a gate turns nobody away whom Postgres would serve. */
  lemma {:induction false} NotBehindIsThrough(counters: map<Key, int>, inv: Inventory, lines: seq<Line>, n: nat)
    requires n <= |lines| && NotBehind(counters, inv, lines) && ReserveLines(inv, lines[..n]).Some?
    ensures Through(counters, inv, lines, n)
  {
    if n > 0 {
      assert lines[..n][..n - 1] == lines[..n - 1];
      NotBehindIsThrough(counters, inv, lines, n - 1);
      ReservedLeft(inv, lines[..n - 1], lines[n - 1].AtKey());
    }
  }

  /** After a created reservation the gate and Postgres are as far apart as before: they moved in step. */
  lemma {:induction false} GateMovesInStep(before: map<Key, int>, inv: Inventory, lines: seq<Line>,
                                           after: map<Key, int>, i: nat)
    requires Counted(before, inv, lines, |lines|, |lines|, after) && ReserveLines(inv, lines).Some? && i < |lines|
    ensures var k := lines[i].AtKey();
            && k in after
            && after[k] - Left(ReserveLines(inv, lines).value, k) == Tokens(before, inv, k) - Left(inv, k)
  {
    var k := lines[i].AtKey();
    assert Seen(lines, |lines|, k);
    assert lines[..|lines|] == lines;
    ReservedLeft(inv, lines, k);
  }

  /** createReservation from the capped, validated cart. The gate can only turn customers away: a reservation that is
      created is the one Postgres alone would have created, and whatever Postgres refuses is refused.
      With a reliable gate the verdict is decided by the counters and tables before the call, a cold counter counting as
      the sellable units; a gate that is not behind Postgres changes no verdict. The tokens balance afterwards unless
      the gate stops at a line other than the first: then the tokens of the lines before it stay taken. */
  method CreateReservation(db: Database, gate: ReserveGate, id: int, userId: int, cart: seq<Orders.CartItem>,
                           expiresAt: int, isFlash: bool)
    returns (verdict: Verdict)
    modifies db, gate
    ensures verdict.Created? ==>
              && Orders.CreateReservation(old(db.Contents()), id, userId, cart, expiresAt, isFlash).Some?
              && db.Contents()
                 == Orders.CreateReservation(old(db.Contents()), id, userId, cart, expiresAt, isFlash).value
    ensures !verdict.Created? ==> db.Contents() == old(db.Contents())
    ensures verdict.NoStock? || verdict.EmptyCart? ==>
              Orders.CreateReservation(old(db.Contents()), id, userId, cart, expiresAt, isFlash).None?
    ensures !isFlash ==> !verdict.GateRejected? && gate.counters == old(gate.counters)
    ensures old(Settleable(gate, db.variants, Orders.CartLines(cart), isFlash)) ==>
              && Expected(old(gate.counters), old(db.Inv()), Orders.CartLines(cart), verdict)
              && TokensSettled(old(gate.counters), old(db.Inv()), Orders.CartLines(cart), verdict, gate.counters)
    ensures old(Settleable(gate, db.variants, Orders.CartLines(cart), isFlash)) && Positive(Orders.CartLines(cart)) ==>
              (TokensBalance(old(gate.counters), old(db.Inv()), Orders.CartLines(cart), verdict, gate.counters)
               <==> !exists j :: j > 0 && StopsAtGate(old(gate.counters), old(db.Inv()), Orders.CartLines(cart), j))
    ensures old(Settleable(gate, db.variants, Orders.CartLines(cart), isFlash))
            && NotBehind(old(gate.counters), old(db.Inv()), Orders.CartLines(cart)) ==>
              (verdict.Created?
               <==> Orders.CreateReservation(old(db.Contents()), id, userId, cart, expiresAt, isFlash).Some?)
    ensures old(Settleable(gate, db.variants, Orders.CartLines(cart), isFlash)) && verdict.Created? ==>
              forall i :: 0 <= i < |cart| ==>
                var k := Orders.CartLines(cart)[i].AtKey();
                && k in gate.counters
                && gate.counters[k] - Left(db.Inv(), k)
                   == Tokens(old(gate.counters), old(db.Inv()), k) - Left(old(db.Inv()), k)
  {
    if cart == [] {
      return EmptyCart;
    }
    var saved := db.Contents();
    ghost var before := gate.counters;
    var lines := Orders.CartLines(cart);
    ghost var settled := Settleable(gate, db.variants, lines, isFlash);
    var consumed;
    verdict, consumed := ReserveCart(db, gate, lines, isFlash);
    if verdict.NoStock? {
      GiveBack(gate, before, saved.inv, lines, verdict, consumed, settled);
    }
    if verdict.Created? {
      db.reservations := db.reservations[id := Schema.Reservation(userId, ACTIVE, expiresAt, isFlash, lines)];
    } else {
      db.Rollback(saved);
    }
    if settled {
      VerdictSettles(before, saved.inv, lines, verdict, gate.counters);
    }
  }

  /** The tokens of the lines that got past the gate come back. */
  method GiveBack(gate: ReserveGate, ghost before: map<Key, int>, ghost inv: Inventory, ghost lines: seq<Line>,
                  ghost verdict: Verdict, consumed: seq<Line>, ghost settled: bool)
    requires verdict.NoStock?
    requires settled ==>
               && gate.reliable && verdict.index < |lines| && consumed == lines[..verdict.index + 1]
               && Counted(before, inv, lines, verdict.index + 1, verdict.index + 1, gate.counters)
    modifies gate
    ensures consumed == [] ==> gate.counters == old(gate.counters)
    ensures settled ==> TokensSettled(before, inv, lines, verdict, gate.counters)
  {
    if settled {
      forall i | 0 <= i < |consumed| ensures consumed[i].AtKey() in gate.counters {
        assert lines[i].AtKey() == consumed[i].AtKey() && Seen(lines, verdict.index + 1, lines[i].AtKey());
      }
    }
    ReleaseGates(gate, consumed);
    assert lines[..0] == [];
  }

  /** What the last clauses of createReservation need. */
  lemma {:induction false} VerdictSettles(before: map<Key, int>, inv: Inventory, lines: seq<Line>, verdict: Verdict,
                                          after: map<Key, int>)
    requires Expected(before, inv, lines, verdict) && TokensSettled(before, inv, lines, verdict, after)
    ensures Positive(lines) ==>
              (TokensBalance(before, inv, lines, verdict, after)
               <==> !exists j :: j > 0 && StopsAtGate(before, inv, lines, j))
    ensures NotBehind(before, inv, lines) && lines != [] ==> (verdict.Created? <==> ReserveLines(inv, lines).Some?)
    ensures verdict.Created? ==>
              && ReserveLines(inv, lines).Some?
              && forall i :: 0 <= i < |lines| ==>
                   var k := lines[i].AtKey();
                   && k in after
                   && after[k] - Left(ReserveLines(inv, lines).value, k) == Tokens(before, inv, k) - Left(inv, k)
  {
    assert lines[..|lines|] == lines;
    forall j: nat | StopsAtGate(before, inv, lines, j)
      ensures verdict == GateRejected(j)
    {
      ExpectedIsUnique(before, inv, lines, verdict, GateRejected(j));
    }
    if Positive(lines) {
      LaterRejectionKeepsTokens(before, inv, lines, verdict, after);
    }
    if NotBehind(before, inv, lines) && lines != [] && ReserveLines(inv, lines).Some? {
      NotBehindIsThrough(before, inv, lines, |lines|);
      ExpectedIsUnique(before, inv, lines, verdict, Created);
    }
    if verdict.Created? {
      forall i | 0 <= i < |lines|
        ensures var k := lines[i].AtKey();
                && k in after
                && after[k] - Left(ReserveLines(inv, lines).value, k) == Tokens(before, inv, k) - Left(inv, k)
      {
        GateMovesInStep(before, inv, lines, after, i);
      }
    }
  }

  /** A cart of two lines, a gate with a token for the first and none for the second, and stock for both: the gate
      stops at the second line. */
  lemma {:induction false} SecondLineStops(inv: Inventory)
    requires inv.rows == map[Key(DEFAULT_WAREHOUSE, 1) := Row(1, 0), Key(DEFAULT_WAREHOUSE, 2) := Row(1, 0)]
    requires inv.variants == map[1 := Variant(1, 0, 0), 2 := Variant(1, 0, 0)]
    ensures StopsAtGate(map[Key(DEFAULT_WAREHOUSE, 1) := 1, Key(DEFAULT_WAREHOUSE, 2) := 0], inv,
                        Orders.CartLines([Orders.CartItem(1, 1), Orders.CartItem(2, 1)]), 1)
  {
    var lines := Orders.CartLines([Orders.CartItem(1, 1), Orders.CartItem(2, 1)]);
    var first := Line(DEFAULT_WAREHOUSE, 1, 1);
    assert lines == [first, Line(DEFAULT_WAREHOUSE, 2, 1)];
    assert lines[..1] == [first] && lines[..0] == [] && [first][..0] == [];
    assert QtyAt([first], Key(DEFAULT_WAREHOUSE, 2)) == 0;
    assert ReserveLines(inv, [first]) == ReserveLine(inv, first);
  }

  /** consume: only an ACTIVE reservation can back an order. */
  method Consume(tx: Database, id: int) returns (ok: bool)
    modifies tx`reservations
    ensures ok <==> Reservations.Consume(old(tx.reservations), id).Some?
    ensures tx.reservations
         == if ok then Reservations.Consume(old(tx.reservations), id).value else old(tx.reservations)
  {
    ok := id in tx.reservations && tx.reservations[id].status.ACTIVE?;
    if ok {
      tx.reservations := tx.reservations[id := tx.reservations[id].(status := CONSUMED)];
    }
  }

  /** Whatever other requests and the cron do between two statements of this one; they never rewrite the items or the
      owner of a reservation, nor delete one. */
  method OtherRequests(db: Database)
    modifies db
    ensures StoreMachine.Frozen(old(db.reservations), db.reservations)
  {
    var rows, variants, orders := *, *, *;
    db.rows, db.variants, db.orders := rows, variants, orders;
    var reservations: map<int, Reservation> := *;
    if StoreMachine.Frozen(db.reservations, reservations) {
      db.reservations := reservations;
    }
  }

  datatype ReleaseVerdict = NotFound | NotActive | Done(expiredNow: bool)

  /** releaseById: `start` is the database when its transaction begins, after others ran. */
  method ReleaseById(db: Database, id: int, userId: int) returns (verdict: ReleaseVerdict, ghost start: Tables)
    modifies db
    ensures StoreMachine.Frozen(old(db.reservations), start.reservations)
    ensures verdict.NotFound? <==> id !in old(db.reservations) || old(db.reservations)[id].userId != userId
    ensures verdict.NotActive? <==> !verdict.NotFound? && !old(db.reservations)[id].status.ACTIVE?
    ensures !verdict.Done? ==> db.Contents() == start == old(db.Contents())
    ensures verdict.Done? ==>
              && db.Contents() == Reservations.CommitRelease(start, id, start.reservations[id].items)
              && verdict.expiredNow == start.reservations[id].status.ACTIVE?
  {
    start := db.Contents();
    if id !in db.reservations || db.reservations[id].userId != userId {
      return NotFound, start;
    }
    var reservation := db.reservations[id];
    if !reservation.status.ACTIVE? {
      return NotActive, start;
    }
    OtherRequests(db);
    start := db.Contents();
    if !db.reservations[id].status.ACTIVE? {
      return Done(false), start;
    }
    db.reservations := db.reservations[id := db.reservations[id].(status := EXPIRED)];
    var i := 0;
    while i < |reservation.items|
      invariant 0 <= i <= |reservation.items|
      invariant db.Inv() == ReleaseHolds(start.inv, reservation.items[..i])
      invariant db.reservations == start.reservations[id := start.reservations[id].(status := EXPIRED)]
      invariant db.orders == start.orders
    {
      assert reservation.items[..i + 1][..i] == reservation.items[..i];
      InventoryService.ReleaseHold(db, reservation.items[i]);
      i := i + 1;
    }
    assert reservation.items[..i] == reservation.items;
    verdict := Done(true);
  }

  /** expireOldReservations on the selected rows: one statement for all of them, equal to releasing them one by one in
      any order. */
  method ExpireOldReservations(db: Database, now: int, ghost locked: set<int>, ids: seq<int>, ghost order: seq<int>)
    requires Reservations.Selected(db.reservations, now, locked, ids) && multiset(order) == multiset(ids)
    requires forall id :: id in db.reservations ==> Positive(db.reservations[id].items)
    modifies db
    ensures db.Contents() == Reservations.BatchExpire(old(db.Contents()), ids)
    ensures db.Contents() == Reservations.SerialExpire(old(db.Contents()), order)
    ensures forall id :: id in db.reservations && id !in locked && Reservations.Overdue(db.reservations[id], now) ==>
              |ids| == 500
  {
    BatchExpiry.BatchIsSerial(db.Contents(), ids, order);
    var itemsAgg := Reservations.GroupBy(Reservations.ItemRows(Reservations.ExpiredItems(db.reservations, ids)));
    var variantAgg := Reservations.GroupBy(Reservations.VariantRows(itemsAgg));
    db.reservations := Reservations.Flip(db.reservations, ids);
    db.rows := Reservations.UpdateRows(db.rows, itemsAgg);
    db.variants := Reservations.UpdateVariants(db.variants, variantAgg);
  }
}
