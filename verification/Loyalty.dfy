/** LoyaltyService: points per user, with one transaction row per change.

Points are a running sum that is reflected at zero: earning, bonuses and guarded redemptions never reach the floor, and
a clawback that would go below it stops there.
*/
module Loyalty {
  import opened Schema

  const POINTS_PER_RUPEE := 0.1
  const POINT_VALUE := 0.5
  const MAX_REDEEM_PCT_OF_SUBTOTAL := 0.2

  datatype Kind = EARN | REDEEM | CLAWBACK | REFERRAL_BONUS

  datatype Reference = EarnRef(orderId: int) | ClawbackRef(orderId: int) | TextRef(text: string)

  /** `reference` is unique where it is not null. */
  datatype Tx = Tx(userId: int, orderId: Option<int>, points: int, kind: Kind, reference: Option<Reference>)

  datatype Points = Points(users: map<int, int>, txs: seq<Tx>)

  datatype Error = BadRequest | InsufficientPoints | ConstraintViolation

  datatype Result = Returned(value: real) | Threw(error: Error)

  // ---------- What each operation does ----------

  predicate Taken(txs: seq<Tx>, reference: Option<Reference>) {
    reference.Some? && exists t :: t in txs && t.reference == reference
  }

  /** A transaction row together with the user's new points. */
  function Posted(p: Points, t: Tx, points: int): Points {
    Points(p.users[t.userId := points], p.txs + [t])
  }

  function Earn(p: Points, userId: int, orderId: int, orderTotal: real): (Points, Result) {
    var points := (orderTotal * POINTS_PER_RUPEE).Floor;
    if points <= 0 then (p, Returned(0.0))
    else if Taken(p.txs, Some(EarnRef(orderId))) then (p, Returned(0.0))
    else if userId !in p.users then (p, Threw(ConstraintViolation))
    else
      (Posted(p, Tx(userId, Some(orderId), points, EARN, Some(EarnRef(orderId))), p.users[userId] + points),
       Returned(points as real))
  }

  function MaxPoints(subtotal: real): int {
    (subtotal * MAX_REDEEM_PCT_OF_SUBTOTAL / POINT_VALUE).Floor
  }

  function Redeem(p: Points, userId: int, points: int, orderSubtotal: Option<real>): (Points, Result) {
    if points <= 0 || (orderSubtotal.Some? && points > MaxPoints(orderSubtotal.value)) then (p, Threw(BadRequest))
    else if userId !in p.users || p.users[userId] < points then (p, Threw(InsufficientPoints))
    else
      (Posted(p, Tx(userId, None, -points, REDEEM, None), p.users[userId] - points),
       Returned(points as real * POINT_VALUE))
  }

  /** findFirst of the earn row of an order. */
  function FindEarn(txs: seq<Tx>, userId: int, orderId: int): (r: Option<Tx>)
    ensures r.Some? ==> r.value in txs && r.value.kind.EARN? && r.value.userId == userId
                        && r.value.orderId == Some(orderId)
    ensures r.None? ==> forall t :: t in txs ==> !(t.kind.EARN? && t.userId == userId && t.orderId == Some(orderId))
  {
    if txs == [] then None
    else if txs[0].kind.EARN? && txs[0].userId == userId && txs[0].orderId == Some(orderId) then Some(txs[0])
    else FindEarn(txs[1..], userId, orderId)
  }

  function Greatest(a: int, b: int): int {
    if a >= b then a else b
  }

  function Clawback(p: Points, userId: int, orderId: int): (Points, Result) {
    var earned := FindEarn(p.txs, userId, orderId);
    if earned.None? || earned.value.points <= 0 then (p, Returned(0.0))
    else if Taken(p.txs, Some(ClawbackRef(orderId))) then (p, Returned(0.0))
    else if userId !in p.users then (p, Threw(ConstraintViolation))
    else
      var points := earned.value.points;
      (Posted(p, Tx(userId, Some(orderId), -points, CLAWBACK, Some(ClawbackRef(orderId))),
              Greatest(0, p.users[userId] - points)),
       Returned(points as real))
  }

  /** The CHECK on User keeps points from going negative; the update would throw. */
  function AddBonus(p: Points, userId: int, points: int, reference: Option<Reference>): (Points, Result) {
    if Taken(p.txs, reference) then (p, Returned(0.0))
    else if userId !in p.users || p.users[userId] + points < 0 then (p, Threw(ConstraintViolation))
    else
      (Posted(p, Tx(userId, None, points, REFERRAL_BONUS, reference), p.users[userId] + points), Returned(0.0))
  }

  // ---------- The service ----------

  class LoyaltyService {
    var users: map<int, int>
    var txs: seq<Tx>

    constructor (p: Points)
      ensures Contents() == p
    {
      users, txs := p.users, p.txs;
    }

    function Contents(): Points
      reads this
    {
      Points(users, txs)
    }

    /** Insert under the unique index on the reference. */
    method InsertTx(t: Tx) returns (ok: bool)
      modifies this`txs
      ensures ok <==> !Taken(old(txs), t.reference)
      ensures txs == if ok then old(txs) + [t] else old(txs)
    {
      ok := !(t.reference.Some? && exists u :: u in txs && u.reference == t.reference);
      if ok {
        txs := txs + [t];
      }
    }

    method EarnPoints(userId: int, orderId: int, orderTotal: real) returns (r: Result)
      modifies this
      ensures Contents() == Earn(old(Contents()), userId, orderId, orderTotal).0
      ensures r == Earn(old(Contents()), userId, orderId, orderTotal).1
    {
      var points := (orderTotal * POINTS_PER_RUPEE).Floor;
      if points <= 0 {
        return Returned(0.0);
      }
      var saved := txs;
      var ok := InsertTx(Tx(userId, Some(orderId), points, EARN, Some(EarnRef(orderId))));
      if !ok {
        return Returned(0.0);
      }
      if userId !in users {
        txs := saved;
        return Threw(ConstraintViolation);
      }
      users := users[userId := users[userId] + points];
      return Returned(points as real);
    }

    method RedeemPoints(userId: int, pointsToRedeem: int, orderSubtotal: Option<real>) returns (r: Result)
      modifies this
      ensures Contents() == Redeem(old(Contents()), userId, pointsToRedeem, orderSubtotal).0
      ensures r == Redeem(old(Contents()), userId, pointsToRedeem, orderSubtotal).1
    {
      if pointsToRedeem <= 0 {
        return Threw(BadRequest);
      }
      if orderSubtotal.Some? {
        var maxDiscount := orderSubtotal.value * MAX_REDEEM_PCT_OF_SUBTOTAL;
        if pointsToRedeem > (maxDiscount / POINT_VALUE).Floor {
          return Threw(BadRequest);
        }
      }
      if userId !in users || users[userId] < pointsToRedeem {
        return Threw(InsufficientPoints);
      }
      users := users[userId := users[userId] - pointsToRedeem];
      var _ := InsertTx(Tx(userId, None, -pointsToRedeem, REDEEM, None));
      return Returned(pointsToRedeem as real * POINT_VALUE);
    }

    method ClawbackPoints(userId: int, orderId: int) returns (r: Result)
      modifies this
      ensures Contents() == Clawback(old(Contents()), userId, orderId).0
      ensures r == Clawback(old(Contents()), userId, orderId).1
    {
      var earned := FindEarn(txs, userId, orderId);
      if earned.None? || earned.value.points <= 0 {
        return Returned(0.0);
      }
      var points, saved := earned.value.points, txs;
      var ok := InsertTx(Tx(userId, Some(orderId), -points, CLAWBACK, Some(ClawbackRef(orderId))));
      if !ok {
        return Returned(0.0);
      }
      if userId !in users {
        txs := saved;
        return Threw(ConstraintViolation);
      }
      users := users[userId := Greatest(0, users[userId] - points)];
      return Returned(points as real);
    }

    method Bonus(userId: int, points: int, reference: Option<Reference>) returns (r: Result)
      modifies this
      ensures Contents() == AddBonus(old(Contents()), userId, points, reference).0
      ensures r == AddBonus(old(Contents()), userId, points, reference).1
    {
      var saved := txs;
      var ok := InsertTx(Tx(userId, None, points, REFERRAL_BONUS, reference));
      if !ok {
        return Returned(0.0);
      }
      if userId !in users || users[userId] + points < 0 {
        txs := saved;
        return Threw(ConstraintViolation);
      }
      users := users[userId := users[userId] + points];
      return Returned(0.0);
    }
  }

  // ---------- Runs ----------

  datatype Step =
    | Earning(userId: int, orderId: int, orderTotal: real)
    | Redeeming(userId: int, points: int, orderSubtotal: Option<real>)
    | ClawingBack(userId: int, orderId: int)
    | Granting(userId: int, bonus: int, reference: Option<Reference>)

  function Next(p: Points, step: Step): Points {
    match step
    case Earning(userId, orderId, orderTotal) => Earn(p, userId, orderId, orderTotal).0
    case Redeeming(userId, points, orderSubtotal) => Redeem(p, userId, points, orderSubtotal).0
    case ClawingBack(userId, orderId) => Clawback(p, userId, orderId).0
    case Granting(userId, bonus, reference) => AddBonus(p, userId, bonus, reference).0
  }

  function Run(p: Points, steps: seq<Step>): Points {
    if steps == [] then p else Next(Run(p, steps[..|steps| - 1]), steps[|steps| - 1])
  }

  /** S: the signed sum of a user's transactions. */
  function SumOf(txs: seq<Tx>, userId: int): int {
    if txs == [] then 0
    else
      var last := txs[|txs| - 1];
      SumOf(txs[..|txs| - 1], userId) + if last.userId == userId then last.points else 0
  }

  /** The least S so far, the empty sum included. */
  function LowOf(txs: seq<Tx>, userId: int): int {
    if txs == [] then 0
    else
      var before := LowOf(txs[..|txs| - 1], userId);
      if SumOf(txs, userId) < before then SumOf(txs, userId) else before
  }

  lemma {:induction false} LowIsTheMinimum(txs: seq<Tx>, userId: int)
    ensures forall s :: 0 <= s <= |txs| ==> LowOf(txs, userId) <= SumOf(txs[..s], userId)
    ensures exists s :: 0 <= s <= |txs| && LowOf(txs, userId) == SumOf(txs[..s], userId)
    decreases |txs|
  {
    assert txs[..|txs|] == txs;
    if txs != [] {
      var n := |txs| - 1;
      LowIsTheMinimum(txs[..n], userId);
      forall s | 0 <= s <= n
        ensures txs[..n][..s] == txs[..s]
      {
      }
    }
  }

  ghost predicate Reflected(p: Points) {
    forall u :: u in p.users ==> p.users[u] == SumOf(p.txs, u) - LowOf(p.txs, u)
  }

  ghost predicate UniqueReferences(txs: seq<Tx>) {
    forall i, j :: 0 <= i < j < |txs| && txs[i].reference.Some? ==> txs[i].reference != txs[j].reference
  }

  /** Earn and clawback rows carry the reference of their order. */
  ghost predicate Referenced(txs: seq<Tx>) {
    forall t :: t in txs && t.orderId.Some? ==>
      && (t.kind.EARN? ==> t.reference == Some(EarnRef(t.orderId.value)) && t.points > 0)
      && (t.kind.CLAWBACK? ==> t.reference == Some(ClawbackRef(t.orderId.value)))
      && (t.kind.EARN? || t.kind.CLAWBACK?)
  }

  /** A clawback takes back what the order earned, from the user who earned it. */
  ghost predicate ClawbacksMatch(txs: seq<Tx>) {
    forall t :: t in txs && t.kind.CLAWBACK? ==>
      t.orderId.Some? && exists e :: e in txs && e.kind.EARN? && e.orderId == t.orderId && e.userId == t.userId
                                     && e.points == -t.points
  }

  ghost predicate Sound(p: Points) {
    Reflected(p) && UniqueReferences(p.txs) && Referenced(p.txs) && ClawbacksMatch(p.txs)
  }

  lemma {:induction false} LowIsBelow(txs: seq<Tx>, userId: int)
    ensures LowOf(txs, userId) <= SumOf(txs, userId)
  {
  }

  lemma {:induction false} PostKeepsReflected(p: Points, t: Tx, points: int)
    requires Reflected(p) && t.userId in p.users && points == Greatest(0, p.users[t.userId] + t.points)
    ensures Reflected(Posted(p, t, points))
  {
    var after := Posted(p, t, points);
    assert after.txs[..|p.txs|] == p.txs;
    forall u | u in after.users
      ensures after.users[u] == SumOf(after.txs, u) - LowOf(after.txs, u)
    {
      LowIsBelow(p.txs, u);
    }
  }

  lemma {:induction false} PostKeepsRows(txs: seq<Tx>, t: Tx)
    requires UniqueReferences(txs) && Referenced(txs) && ClawbacksMatch(txs) && !Taken(txs, t.reference)
    requires Referenced([t])
    requires t.kind.CLAWBACK? ==>
               t.orderId.Some? && exists e :: e in txs && e.kind.EARN? && e.orderId == t.orderId
                                              && e.userId == t.userId && e.points == -t.points
    ensures UniqueReferences(txs + [t]) && Referenced(txs + [t]) && ClawbacksMatch(txs + [t])
  {
    assert t in [t];
    forall x | x in txs + [t] && x.kind.CLAWBACK?
      ensures x.orderId.Some? && exists e :: e in txs + [t] && e.kind.EARN? && e.orderId == x.orderId
                                             && e.userId == x.userId && e.points == -x.points
    {
      var e :| e in txs && e.kind.EARN? && e.orderId == x.orderId && e.userId == x.userId && e.points == -x.points;
      assert e in txs + [t];
    }
  }

  lemma {:induction false} StepKeepsSound(p: Points, step: Step)
    requires Sound(p)
    ensures Sound(Next(p, step))
  {
    var after := Next(p, step);
    if after != p {
      var t := after.txs[|p.txs|];
      LowIsBelow(p.txs, t.userId);
      PostKeepsReflected(p, t, after.users[t.userId]);
      PostKeepsRows(p.txs, t);
    }
  }

  ghost predicate Initial(p: Points) {
    p.txs == [] && forall u :: u in p.users ==> p.users[u] == 0
  }

  lemma {:induction false} RunKeepsSound(p: Points, steps: seq<Step>)
    requires Sound(p)
    ensures Sound(Run(p, steps))
    decreases |steps|
  {
    if steps != [] {
      RunKeepsSound(p, steps[..|steps| - 1]);
      StepKeepsSound(Run(p, steps[..|steps| - 1]), steps[|steps| - 1]);
    }
  }

  /** Starting from zero, a user's points are S_t less the least S_s, over every run. */
  lemma {:induction false} PointsAreReflectedSums(p: Points, steps: seq<Step>, u: int)
    requires Initial(p) && u in p.users
    ensures var after := Run(p, steps);
            && u in after.users && 0 <= after.users[u]
            && (forall s :: 0 <= s <= |after.txs| ==>
                  SumOf(after.txs, u) - SumOf(after.txs[..s], u) <= after.users[u])
            && (exists s :: 0 <= s <= |after.txs|
                            && after.users[u] == SumOf(after.txs, u) - SumOf(after.txs[..s], u))
  {
    RunKeepsSound(p, steps);
    UsersStay(p, steps);
    LowIsTheMinimum(Run(p, steps).txs, u);
    LowIsBelow(Run(p, steps).txs, u);
  }

  lemma {:induction false} UsersStay(p: Points, steps: seq<Step>)
    ensures Run(p, steps).users.Keys == p.users.Keys
    decreases |steps|
  {
    if steps != [] {
      UsersStay(p, steps[..|steps| - 1]);
    }
  }

  /** At most one earn and at most one clawback per order, and a clawback equals what was earned. */
  lemma {:induction false} OneEarnOneClawback(p: Points, steps: seq<Step>, i: nat, j: nat)
    requires Initial(p) && i < |Run(p, steps).txs| && j < |Run(p, steps).txs|
    requires var a, b := Run(p, steps).txs[i], Run(p, steps).txs[j];
             a.orderId.Some? && a.orderId == b.orderId && a.kind == b.kind
    ensures i == j
    ensures var a := Run(p, steps).txs[i];
            a.kind.CLAWBACK? ==> exists e :: e in Run(p, steps).txs && e.kind.EARN? && e.orderId == a.orderId
                                             && e.userId == a.userId && e.points == -a.points
  {
    RunKeepsSound(p, steps);
    var txs := Run(p, steps).txs;
    assert txs[i] in txs && txs[j] in txs;
  }

  // ---------- What each operation decides ----------

  /** The row t was inserted, and its user's points moved by exactly its points, or down to zero. */
  ghost predicate Landed(before: Points, after: Points, t: Tx) {
    && t.userId in before.users && after.txs == before.txs + [t]
    && after.users == before.users[t.userId := Greatest(0, before.users[t.userId] + t.points)]
  }

  ghost predicate HasReference(txs: seq<Tx>, reference: Reference) {
    exists i :: 0 <= i < |txs| && txs[i].reference == Some(reference)
  }

  lemma {:induction false} TakenIff(txs: seq<Tx>, reference: Reference)
    ensures Taken(txs, Some(reference)) <==> HasReference(txs, reference)
  {
    if HasReference(txs, reference) {
      var i :| 0 <= i < |txs| && txs[i].reference == Some(reference);
      assert txs[i] in txs;
    }
  }

  lemma {:induction false} PointsAreNonNegative(p: Points, steps: seq<Step>, u: int)
    requires Initial(p)
    ensures Run(p, steps).users.Keys == p.users.Keys
    ensures u in p.users ==> 0 <= Run(p, steps).users[u]
  {
    UsersStay(p, steps);
    if u in p.users {
      PointsAreReflectedSums(p, steps, u);
    }
  }

  /** In every run an order earns its whole tenth exactly if that is at least one point, the user exists, and the order
      has not earned before. */
  lemma {:induction false} EarnsIff(p: Points, steps: seq<Step>, u: int, orderId: int, total: real)
    requires Initial(p)
    ensures var r := Run(p, steps);
            var (after, result) := Earn(r, u, orderId, total);
            var points := (total / 10.0).Floor;
            if total >= 10.0 && u in r.users && !HasReference(r.txs, EarnRef(orderId)) then
              && Landed(r, after, Tx(u, Some(orderId), points, EARN, Some(EarnRef(orderId))))
              && points >= 1 && result == Returned(points as real)
            else after == r && (result == Returned(0.0) || result.Threw?)
  {
    var r := Run(p, steps);
    TakenIff(r.txs, EarnRef(orderId));
    PointsAreNonNegative(p, steps, u);
    assert total * POINTS_PER_RUPEE == total / 10.0;
    assert total >= 10.0 <==> (total / 10.0).Floor >= 1;
  }

  /** In every run points are redeemed, for half a rupee each, exactly if the user has them and, where the subtotal is
      known, the discount is at most a fifth of it. */
  lemma {:induction false} RedeemsIff(p: Points, steps: seq<Step>, u: int, points: int, subtotal: Option<real>)
    requires Initial(p)
    ensures var r := Run(p, steps);
            var (after, result) := Redeem(r, u, points, subtotal);
            if points > 0 && u in r.users && points <= r.users[u]
               && (subtotal.Some? ==> points as real / 2.0 <= subtotal.value / 5.0)
            then
              && Landed(r, after, Tx(u, None, -points, REDEEM, None)) && after.users[u] == r.users[u] - points
              && result == Returned(points as real / 2.0)
            else after == r && result.Threw?
  {
    if subtotal.Some? {
      var most := subtotal.value * MAX_REDEEM_PCT_OF_SUBTOTAL / POINT_VALUE;
      assert most == subtotal.value / 5.0 * 2.0;
      assert points <= most.Floor <==> points as real <= most;
    }
  }

  /** In every run what an order earned for its user is taken back exactly if it earned and was not taken back
      before. */
  lemma {:induction false} ClawsBackIff(p: Points, steps: seq<Step>, u: int, orderId: int)
    requires Initial(p)
    ensures var r := Run(p, steps);
            var (after, result) := Clawback(r, u, orderId);
            var earned := FindEarn(r.txs, u, orderId);
            if earned.Some? && u in r.users && !HasReference(r.txs, ClawbackRef(orderId)) then
              && earned.value.points > 0
              && Landed(r, after, Tx(u, Some(orderId), -earned.value.points, CLAWBACK, Some(ClawbackRef(orderId))))
              && result == Returned(earned.value.points as real)
            else after == r && (result == Returned(0.0) || result.Threw?)
  {
    PointsAreNonNegative(p, steps, u);
    StartIsSound(p);
    RunKeepsSound(p, steps);
    TakenIff(Run(p, steps).txs, ClawbackRef(orderId));
  }

  lemma {:induction false} StartIsSound(p: Points)
    requires Initial(p)
    ensures Sound(p)
  {
  }

  /** In every run a bonus is granted exactly if its reference is new or absent, the user exists, and the points do not
      go below zero. */
  lemma {:induction false} GrantsIff(p: Points, steps: seq<Step>, u: int, bonus: int, reference: Option<Reference>)
    requires Initial(p)
    ensures var r := Run(p, steps);
            var (after, result) := AddBonus(r, u, bonus, reference);
            if u in r.users && 0 <= r.users[u] + bonus
               && (reference.Some? ==> !HasReference(r.txs, reference.value))
            then Landed(r, after, Tx(u, None, bonus, REFERRAL_BONUS, reference)) && result == Returned(0.0)
            else after == r && (result == Returned(0.0) || result.Threw?)
  {
    if reference.Some? {
      TakenIff(Run(p, steps).txs, reference.value);
    }
  }

  lemma {:induction false} LowOneMore(txs: seq<Tx>, t: Tx, u: int)
    ensures LowOf(txs + [t], u)
         == if t.userId == u && SumOf(txs, u) + t.points < LowOf(txs, u) then SumOf(txs, u) + t.points
            else LowOf(txs, u)
  {
    assert (txs + [t])[..|txs|] == txs;
    LowIsBelow(txs, u);
  }

  /** Every other change of points leaves the lowest sum alone. */
  lemma {:induction false} GuardedNeverReachTheFloor(p: Points, step: Step, u: int)
    requires Sound(p) && u in p.users && !(step.ClawingBack? && step.userId == u)
    ensures LowOf(Next(p, step).txs, u) == LowOf(p.txs, u)
  {
    var after := Next(p, step);
    LowIsBelow(p.txs, u);
    if after != p {
      LowOneMore(p.txs, after.txs[|p.txs|], u);
    }
  }

  /** Only a clawback can reach the floor, and it forgives exactly what the user had already spent. */
  lemma {:induction false} ClawbackForgivesWhatWasSpent(p: Points, u: int, orderId: int)
    requires Sound(p) && u in p.users && Clawback(p, u, orderId).0 != p
    ensures var earned := FindEarn(p.txs, u, orderId).value.points;
            && Clawback(p, u, orderId).0.users[u] == Greatest(0, p.users[u] - earned)
            && LowOf(Clawback(p, u, orderId).0.txs, u) == LowOf(p.txs, u) - Greatest(0, earned - p.users[u])
  {
    var after := Clawback(p, u, orderId).0;
    LowOneMore(p.txs, after.txs[|p.txs|], u);
  }

  /** An order earns the whole points of a tenth of its total, if it earns at all. */
  lemma {:induction false} EarnsOnePerTen(p: Points, userId: int, orderId: int, total: real)
    requires Earn(p, userId, orderId, total).0 != p
    ensures var earned := Earn(p, userId, orderId, total).0.users[userId] - p.users[userId];
            earned >= 1 && 10.0 * earned as real <= total < 10.0 * (earned + 1) as real
  {
    var tenth := total * POINTS_PER_RUPEE;
    assert tenth.Floor as real <= tenth < (tenth.Floor + 1) as real;
  }

  /** A redemption against a known subtotal discounts at most a fifth of it. */
  lemma {:induction false} RedemptionIsCapped(p: Points, userId: int, points: int, subtotal: real)
    requires Redeem(p, userId, points, Some(subtotal)).1.Returned?
    ensures Redeem(p, userId, points, Some(subtotal)).1.value <= subtotal * MAX_REDEEM_PCT_OF_SUBTOTAL
  {
    var most := subtotal * MAX_REDEEM_PCT_OF_SUBTOTAL / POINT_VALUE;
    assert points as real <= most.Floor as real <= most;
  }
}
