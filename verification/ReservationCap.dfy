/** enforceConcurrentCap: a user at the limit loses the oldest live reservations before a new one is made. */
module ReservationCap {
  import opened Schema
  import opened Reservations
  import Orders
  import StoreMachine
  import CartReservationService

  const MAX_CONCURRENT_RESERVATIONS_PER_USER := 3

  predicate IsLive(r: Reservation, userId: int, now: int) {
    r.userId == userId && r.status.ACTIVE? && r.expiresAt > now
  }

  function Live(reservations: map<int, Reservation>, userId: int, now: int): set<int> {
    set id | id in reservations && IsLive(reservations[id], userId, now)
  }

  /** `active` is the user's live reservations, oldest first; nothing here depends on creation times otherwise. */
  predicate Listed(reservations: map<int, Reservation>, userId: int, now: int, active: seq<int>) {
    && (forall i, j :: 0 <= i < j < |active| ==> active[i] != active[j])
    && (forall id :: id in active ==> id in Live(reservations, userId, now))
    && (forall id :: id in Live(reservations, userId, now) ==> id in active)
  }

  function ToKill(active: seq<int>): seq<int> {
    if |active| < MAX_CONCURRENT_RESERVATIONS_PER_USER then []
    else active[..|active| - MAX_CONCURRENT_RESERVATIONS_PER_USER + 1]
  }

  /** The cap when nobody interferes. */
  function EnforceCap(t: Tables, active: seq<int>): Tables {
    SerialExpire(t, ToKill(active))
  }

  lemma {:induction false} FlipOneMore(reservations: map<int, Reservation>, ids: seq<int>, id: int)
    requires id in reservations
    ensures Flip(reservations, ids + [id])
         == if Flip(reservations, ids)[id].status.ACTIVE? then
              Flip(reservations, ids)[id := Flip(reservations, ids)[id].(status := EXPIRED)]
            else Flip(reservations, ids)
  {
    forall i | i in reservations
      ensures i in ids + [id] <==> i in ids || i == id
    {
    }
  }

  lemma {:induction false} ExpiredAreFlipped(t: Tables, ids: seq<int>)
    requires forall id :: id in ids ==> id in t.reservations
    ensures SerialExpire(t, ids).reservations == Flip(t.reservations, ids)
    decreases |ids|
  {
    if ids != [] {
      var n := |ids| - 1;
      var last := ids[n];
      assert last in t.reservations;
      ExpiredAreFlipped(t, ids[..n]);
      FlipOneMore(t.reservations, ids[..n], last);
      assert ids == ids[..n] + [last];
    }
  }

  lemma {:induction false} SizeOf(ids: seq<int>, s: set<int>)
    requires forall i, j :: 0 <= i < j < |ids| ==> ids[i] != ids[j]
    requires forall id :: id in s <==> id in ids
    ensures |s| == |ids|
  {
    if ids == [] {
      assert forall id :: id in s ==> id in ids;
      assert s <= {};
    } else {
      assert ids == [ids[0]] + ids[1..];
      SizeOf(ids[1..], s - {ids[0]});
    }
  }

  /** Run alone, the cap keeps exactly the newest live reservations, at most one below the limit. */
  lemma {:induction false} CapKeepsTheNewest(t: Tables, userId: int, now: int, active: seq<int>)
    requires Listed(t.reservations, userId, now, active)
    ensures var kept := active[|ToKill(active)|..];
            && (forall id :: id in Live(EnforceCap(t, active).reservations, userId, now) <==> id in kept)
            && |Live(EnforceCap(t, active).reservations, userId, now)| == |kept| == if |active| < 2 then |active| else 2
    ensures forall id :: id in t.reservations && id !in ToKill(active) ==>
              id in EnforceCap(t, active).reservations
              && EnforceCap(t, active).reservations[id] == t.reservations[id]
  {
    var dead, kept := ToKill(active), active[|ToKill(active)|..];
    assert active == dead + kept;
    assert forall id :: id in dead ==> id in active && id in Live(t.reservations, userId, now);
    ExpiredAreFlipped(t, dead);
    var after := Live(EnforceCap(t, active).reservations, userId, now);
    forall id
      ensures id in after <==> id in kept
    {
      if id in dead {
        var i :| 0 <= i < |dead| && dead[i] == id;
        assert active[i] == id && forall k :: 0 <= k < |kept| ==> kept[k] == active[|dead| + k];
      }
      assert id in active <==> id in dead || id in kept;
    }
    SizeOf(kept, after);
  }

  lemma {:induction false} InsertedLive(reservations: map<int, Reservation>, id: int, r: Reservation, userId: int,
                                        now: int)
    requires id !in reservations && IsLive(r, userId, now)
    ensures |Live(reservations[id := r], userId, now)| == |Live(reservations, userId, now)| + 1
  {
    assert Live(reservations[id := r], userId, now) == Live(reservations, userId, now) + {id};
  }

  lemma {:induction false} OneMoreLive(t: Tables, id: int, userId: int, cart: seq<Orders.CartItem>, expiresAt: int,
                                       isFlash: bool, now: int)
    requires id !in t.reservations && expiresAt > now
    requires Orders.CreateReservation(t, id, userId, cart, expiresAt, isFlash).Some?
    ensures var after := Orders.CreateReservation(t, id, userId, cart, expiresAt, isFlash).value;
            |Live(after.reservations, userId, now)| == |Live(t.reservations, userId, now)| + 1
  {
    InsertedLive(t.reservations, id, Reservation(userId, ACTIVE, expiresAt, isFlash, Orders.CartLines(cart)), userId,
                 now);
  }

  /** One request of the user that has passed the cap and goes on to create its reservation. */
  datatype Request = Request(id: int, cart: seq<Orders.CartItem>, expiresAt: int, isFlash: bool)

  /** The transactions of such requests, one after the other; None if one of them throws. */
  function CreateAll(t: Tables, userId: int, requests: seq<Request>): Option<Tables> {
    if requests == [] then Some(t)
    else
      var last := requests[|requests| - 1];
      match CreateAll(t, userId, requests[..|requests| - 1])
      case None => None
      case Some(mid) => Orders.CreateReservation(mid, last.id, userId, last.cart, last.expiresAt, last.isFlash)
  }

  /** Each request gets an id of its own, and its reservation outlives the moment. */
  ghost predicate Fresh(t: Tables, requests: seq<Request>, now: int) {
    && (forall i :: 0 <= i < |requests| ==> requests[i].id !in t.reservations && requests[i].expiresAt > now)
    && (forall i, j :: 0 <= i < j < |requests| ==> requests[i].id != requests[j].id)
  }

  lemma {:induction false} CreatedAreLive(t: Tables, userId: int, requests: seq<Request>, now: int)
    requires Fresh(t, requests, now) && CreateAll(t, userId, requests).Some?
    ensures var after := CreateAll(t, userId, requests).value.reservations;
            && |Live(after, userId, now)| == |Live(t.reservations, userId, now)| + |requests|
            && (forall id :: id in after ==>
                  id in t.reservations || exists i :: 0 <= i < |requests| && requests[i].id == id)
    decreases |requests|
  {
    if requests != [] {
      var n := |requests| - 1;
      var last := requests[n];
      CreatedAreLive(t, userId, requests[..n], now);
      var mid := CreateAll(t, userId, requests[..n]).value;
      assert last.id !in mid.reservations;
      OneMoreLive(mid, last.id, userId, last.cart, last.expiresAt, last.isFlash, now);
      assert requests[n].id == last.id && forall i :: 0 <= i < n ==> requests[..n][i] == requests[i];
    }
  }

  function Least(a: int, b: int): int {
    if a < b then a else b
  }

  /** Any number of requests that pass the cap before the first of them creates its reservation: the user ends with the
      kept ones and theirs, and exceeds the limit exactly if these are more than three. A single one never does. */
  lemma {:induction false} AtOnceExceedIff(t: Tables, userId: int, now: int, active: seq<int>, requests: seq<Request>)
    requires Listed(t.reservations, userId, now, active)
    requires Fresh(EnforceCap(t, active), requests, now)
    requires CreateAll(EnforceCap(t, active), userId, requests).Some?
    ensures var live := Live(CreateAll(EnforceCap(t, active), userId, requests).value.reservations, userId, now);
            && |live| == Least(|active|, 2) + |requests|
            && (|live| > MAX_CONCURRENT_RESERVATIONS_PER_USER <==> Least(|active|, 2) + |requests| > 3)
            && (|requests| == 1 ==> |live| <= MAX_CONCURRENT_RESERVATIONS_PER_USER)
  {
    CapKeepsTheNewest(t, userId, now, active);
    CreatedAreLive(EnforceCap(t, active), userId, requests, now);
  }

  // ---------- The loop, with other requests between its statements ----------

  lemma {:induction false} FrozenAcross(a: map<int, Reservation>, b: map<int, Reservation>, c: map<int, Reservation>)
    requires StoreMachine.Frozen(a, b) && StoreMachine.Frozen(b, c)
    ensures StoreMachine.Frozen(a, c)
  {
  }

  /** `fails` says whose release the database refuses, which is swallowed. Whatever the other requests do meanwhile,
      none of the other reservations it set out to end is still ACTIVE. */
  method EnforceConcurrentCap(db: Database, userId: int, now: int, active: seq<int>, fails: seq<bool>)
    requires Listed(db.reservations, userId, now, active) && |fails| == |ToKill(active)|
    modifies db
    ensures StoreMachine.Frozen(old(db.reservations), db.reservations)
    ensures forall k :: 0 <= k < |fails| && !fails[k] ==>
              ToKill(active)[k] in db.reservations && !db.reservations[ToKill(active)[k]].status.ACTIVE?
  {
    var toKill := ToKill(active);
    var i := 0;
    while i < |toKill|
      invariant i <= |toKill| && StoreMachine.Frozen(old(db.reservations), db.reservations)
      invariant forall k :: 0 <= k < i && !fails[k] ==>
                  toKill[k] in db.reservations && !db.reservations[toKill[k]].status.ACTIVE?
    {
      var id := toKill[i];
      assert id in active && id in old(db.reservations) && id in db.reservations;
      ghost var before := db.reservations;
      if fails[i] {
        CartReservationService.OtherRequests(db);
        FrozenAcross(old(db.reservations), before, db.reservations);
      } else {
        var verdict, start := CartReservationService.ReleaseById(db, id, userId);
        FrozenAcross(before, start.reservations, db.reservations);
        FrozenAcross(old(db.reservations), before, db.reservations);
        assert !db.reservations[id].status.ACTIVE?;
      }
      i := i + 1;
    }
  }
}
