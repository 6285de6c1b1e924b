/** PaymentsService.refundStripePayment: a two-phase refund of one order, run by any number of concurrent callers beside
    deliveries of the charge.refunded webhook.

Each database statement and the gateway call is one step; between two of them anything else may happen. The gateway
answers as it likes. A write after an accepted refund may fail, before or after the request is marked; the code treats
that like a refusal of the gateway.
*/
module StripeRefund {
  import opened Schema

  datatype PaymentStatus = UNPAID | PAID | REFUNDED | PARTIALLY_REFUNDED

  datatype RefundStatus = PENDING | PROCESSING | COMPLETED | FAILED

  datatype Request = Request(status: RefundStatus, retryCount: nat)

  datatype Row = Row(status: OrderStatus, paymentStatus: PaymentStatus, hasPayment: bool)

  /** Where a caller stands; `prior` is the order status it read. */
  datatype Phase =
    | Read(prior: OrderStatus)         // checks passed, nothing written
    | Claimed(prior: OrderStatus)      // the order is CANCELLING for this caller
    | Requested(prior: OrderStatus)    // the RefundRequest is PROCESSING
    | Refunded(prior: OrderStatus)     // the gateway accepted
    | Refused(prior: OrderStatus)      // the gateway failed
    | RolledBack(prior: OrderStatus)   // the status was put back, the request not yet marked

  /** `refunds` counts the refunds the gateway has made for callers, `lostWrites` the failed writes after one; both are
      history, which no step reads. */
  datatype Sys = Sys(order: Row, request: Option<Request>, callers: map<int, Phase>, refunds: nat, lostWrites: nat)

  datatype Step =
    | Begin(caller: int)
    | Claim(caller: int)
    | Upsert(caller: int)
    | UpsertThrows(caller: int)
    | Gateway(caller: int, accepts: bool)
    | Complete(caller: int)
    | CompleteThrows(caller: int, marked: bool)
    | RollBack(caller: int)
    | MarkFailed(caller: int)
    | Webhook

  /** The checks on the order as read. */
  predicate Refundable(row: Row) {
    row.hasPayment && row.paymentStatus.PAID? && !row.status.CANCELLING? && !row.status.REFUNDED?
  }

  function Next(s: Sys, step: Step): Sys {
    match step
    case Begin(c) =>
      if c in s.callers || !Refundable(s.order) then s
      else s.(callers := s.callers[c := Read(s.order.status)])
    case Claim(c) =>
      if c !in s.callers || !s.callers[c].Read? then s
      else if s.order.status == s.callers[c].prior && s.order.paymentStatus.PAID? then
        s.(order := s.order.(status := CANCELLING), callers := s.callers[c := Claimed(s.callers[c].prior)])
      else s.(callers := s.callers - {c})
    case Upsert(c) =>
      if c !in s.callers || !s.callers[c].Claimed? then s
      else
        s.(request := match s.request
                      case None => Some(Request(RefundStatus.PROCESSING, 0))
                      case Some(r) => Some(Request(RefundStatus.PROCESSING, r.retryCount + 1)),
           callers := s.callers[c := Requested(s.callers[c].prior)])
    case UpsertThrows(c) =>
      // Outside the try block: nothing puts the order back.
      if c !in s.callers || !s.callers[c].Claimed? then s else s.(callers := s.callers - {c})
    case Gateway(c, accepts) =>
      if c !in s.callers || !s.callers[c].Requested? then s
      else
        s.(refunds := if accepts then s.refunds + 1 else s.refunds,
           callers := s.callers[c := if accepts then Refunded(s.callers[c].prior) else Refused(s.callers[c].prior)])
    case Complete(c) =>
      if c !in s.callers || !s.callers[c].Refunded? || s.request.None? then s
      else s.(request := Some(s.request.value.(status := COMPLETED)), callers := s.callers - {c})
    case CompleteThrows(c, marked) =>
      if c !in s.callers || !s.callers[c].Refunded? || s.request.None? then s
      else
        s.(request := if marked then Some(s.request.value.(status := COMPLETED)) else s.request,
           callers := s.callers[c := Refused(s.callers[c].prior)], lostWrites := s.lostWrites + 1)
    case RollBack(c) =>
      if c !in s.callers || !s.callers[c].Refused? then s
      else
        s.(order := if s.order.status.CANCELLING? then s.order.(status := s.callers[c].prior) else s.order,
           callers := s.callers[c := RolledBack(s.callers[c].prior)])
    case MarkFailed(c) =>
      if c !in s.callers || !s.callers[c].RolledBack? || s.request.None? then s
      else s.(request := Some(s.request.value.(status := FAILED)), callers := s.callers - {c})
    case Webhook =>
      if s.order.hasPayment && !s.order.paymentStatus.REFUNDED? then
        s.(order := s.order.(status := OrderStatus.REFUNDED, paymentStatus := PaymentStatus.REFUNDED))
      else s
  }

  function Run(s: Sys, steps: seq<Step>): Sys {
    if steps == [] then s else Next(Run(s, steps[..|steps| - 1]), steps[|steps| - 1])
  }

  predicate Init(s: Sys) {
    && s.callers == map[] && s.refunds == 0 && s.lostWrites == 0
    && (s.order.paymentStatus.REFUNDED? <==> s.order.status.REFUNDED?)
  }

  /** Between the claim and the completion, or the rollback of a failed attempt. */
  predicate Active(s: Sys, c: int) {
    c in s.callers && !s.callers[c].Read? && !s.callers[c].RolledBack?
  }

  ghost predicate Inv(s: Sys) {
    && (forall a, b :: Active(s, a) && Active(s, b) ==> a == b)
    && (forall c :: Active(s, c) ==> s.order.status.CANCELLING? || s.order.status.REFUNDED?)
    && (forall c :: c in s.callers ==>
          s.order.hasPayment && !s.callers[c].prior.CANCELLING? && !s.callers[c].prior.REFUNDED?)
    && (s.order.paymentStatus.REFUNDED? <==> s.order.status.REFUNDED?)
    && s.lostWrites <= s.refunds <= s.lostWrites + 1
    && (s.refunds == s.lostWrites + 1 ==>
          && (s.order.status.CANCELLING? || s.order.status.REFUNDED?)
          && forall c :: Active(s, c) ==> s.callers[c].Refunded?)
    && (forall c :: Active(s, c) && s.callers[c].Refunded? ==> s.refunds == s.lostWrites + 1)
    && (forall c :: c in s.callers && !s.callers[c].Read? && !s.callers[c].Claimed? ==> s.request.Some?)
  }

  lemma StepKeepsInv(s: Sys, step: Step)
    requires Inv(s)
    ensures Inv(Next(s, step))
  {
    OnlyClaimActivates(s, step);
    OnlyOneActs(s, step);
    if !step.Webhook? && Active(s, step.caller) {
      assert s.order.status.CANCELLING? || s.order.status.REFUNDED?;
    }
  }

  /** If the caller of a step is past its claim, nobody else is. */
  lemma OnlyOneActs(s: Sys, step: Step)
    requires Inv(s)
    ensures forall c :: Active(s, c) ==> step.Webhook? || !Active(s, step.caller) || c == step.caller
  {
  }

  lemma OnlyClaimActivates(s: Sys, step: Step)
    ensures forall c :: Active(Next(s, step), c) ==> Active(s, c) || step == Claim(c)
  {
  }

  lemma {:induction false} RunKeepsInv(s: Sys, steps: seq<Step>)
    requires Init(s)
    ensures Inv(Run(s, steps))
    decreases |steps|
  {
    if steps != [] {
      RunKeepsInv(s, steps[..|steps| - 1]);
      StepKeepsInv(Run(s, steps[..|steps| - 1]), steps[|steps| - 1]);
    }
  }

  /** At most one caller at a time is past its claim, and the gateway refunds at most once more than writes after a
      refund were lost: exactly once at most if none was. */
  lemma {:induction false} RefundsAreBounded(s: Sys, steps: seq<Step>)
    requires Init(s)
    ensures Run(s, steps).lostWrites <= Run(s, steps).refunds <= Run(s, steps).lostWrites + 1
    ensures forall a, b :: Active(Run(s, steps), a) && Active(Run(s, steps), b) ==> a == b
  {
    RunKeepsInv(s, steps);
  }

  /** A failed attempt puts back the status it claimed from, unless the webhook has set REFUNDED meanwhile. */
  lemma {:induction false} FailedAttemptRestores(s: Sys, steps: seq<Step>, c: int)
    requires Init(s) && c in Run(s, steps).callers && Run(s, steps).callers[c].Refused?
    ensures Next(Run(s, steps), RollBack(c)).order.status
         == if Run(s, steps).order.paymentStatus.REFUNDED? then OrderStatus.REFUNDED
            else Run(s, steps).callers[c].prior
  {
    RunKeepsInv(s, steps);
    assert Active(Run(s, steps), c);
  }

  /** In every run: while a caller is past its claim, and once a refund was accepted and recorded, nobody else can claim
      the order or begin to. */
  lemma {:induction false} ClaimedOrderIsClosed(s: Sys, steps: seq<Step>, c: int, other: int)
    requires Init(s)
    requires Active(Run(s, steps), c) || Run(s, steps).refunds == Run(s, steps).lostWrites + 1
    ensures !Active(Run(s, steps), other) ==> !Active(Next(Run(s, steps), Claim(other)), other)
    ensures other !in Run(s, steps).callers ==> other !in Next(Run(s, steps), Begin(other)).callers
  {
    RunKeepsInv(s, steps);
  }

  // ---------- A call that is not alone ----------

  predicate NotBy(c: int, steps: seq<Step>) {
    forall i :: 0 <= i < |steps| ==> steps[i].Webhook? || steps[i].caller != c
  }

  /** While a caller is past its claim the others make no refund, touch neither its phase nor the number of attempts,
      and move the order nowhere but to REFUNDED. */
  lemma {:induction false} OthersStandBack(s: Sys, c: int, steps: seq<Step>)
    requires Inv(s) && Active(s, c) && NotBy(c, steps)
    ensures var r := Run(s, steps);
            && Inv(r) && c in r.callers && r.callers[c] == s.callers[c]
            && r.refunds == s.refunds && r.lostWrites == s.lostWrites
            && (r.order == s.order || r.order.status.REFUNDED?)
            && (if s.request.None? then r.request.None?
                else r.request.Some? && r.request.value.retryCount == s.request.value.retryCount)
    decreases |steps|
  {
    if steps != [] {
      var mid := Run(s, steps[..|steps| - 1]);
      OthersStandBack(s, c, steps[..|steps| - 1]);
      OnlyOneActs(mid, steps[|steps| - 1]);
      OneStandsBack(mid, c, steps[|steps| - 1]);
    }
  }

  lemma {:induction false} OneStandsBack(s: Sys, c: int, step: Step)
    requires Inv(s) && Active(s, c) && (step.Webhook? || step.caller != c)
    ensures var r := Next(s, step);
            && Inv(r) && c in r.callers && r.callers[c] == s.callers[c]
            && r.refunds == s.refunds && r.lostWrites == s.lostWrites
            && (r.order == s.order || r.order.status.REFUNDED?)
            && (if s.request.None? then r.request.None?
                else r.request.Some? && r.request.value.retryCount == s.request.value.retryCount)
  {
    StepKeepsInv(s, step);
    assert s.order.status.CANCELLING? || s.order.status.REFUNDED?;
    assert !step.Webhook? ==> !Active(s, step.caller);
  }

  /** A caller of a paid order that nobody else claims in between gets to claim it. */
  lemma {:induction false} FirstCallerClaims(s: Sys, c: int)
    requires Refundable(s.order) && c !in s.callers
    ensures var r := Next(Next(s, Begin(c)), Claim(c));
            c in r.callers && r.callers[c] == Claimed(s.order.status) && r.order == s.order.(status := CANCELLING)
  {
  }

  /** The request row and the gateway call of a claimant, with what others do before each. */
  function Attempted(s: Sys, c: int, b2: seq<Step>, b3: seq<Step>, accepts: bool): Sys {
    Next(Run(Next(Run(s, b2), Upsert(c)), b3), Gateway(c, accepts))
  }

  function Attempts(request: Option<Request>): nat {
    if request.Some? then request.value.retryCount + 1 else 0
  }

  /** A claimant's attempt reaches the gateway, whatever the others do, and is counted on the request. */
  lemma {:induction false} ClaimantCalls(s: Sys, c: int, b2: seq<Step>, b3: seq<Step>, accepts: bool)
    requires Inv(s) && c in s.callers && s.callers[c].Claimed? && NotBy(c, b2) && NotBy(c, b3)
    ensures var r := Attempted(s, c, b2, b3, accepts);
            && Inv(r) && Active(r, c)
            && r.callers[c] == (if accepts then Refunded(s.callers[c].prior) else Refused(s.callers[c].prior))
            && r.refunds == s.refunds + (if accepts then 1 else 0) && r.lostWrites == s.lostWrites
            && r.request.Some? && r.request.value.retryCount == Attempts(s.request)
            && (r.order == s.order || r.order.status.REFUNDED?)
  {
    OthersStandBack(s, c, b2);
    var requested := Next(Run(s, b2), Upsert(c));
    StepKeepsInv(Run(s, b2), Upsert(c));
    OthersStandBack(requested, c, b3);
    StepKeepsInv(Run(requested, b3), Gateway(c, accepts));
  }

  /** An accepted refund of a claimant: one refund, on record as COMPLETED, and the order no longer claimable. */
  lemma {:induction false} AcceptedAttempt(s: Sys, c: int, b2: seq<Step>, b3: seq<Step>, b4: seq<Step>)
    requires Inv(s) && c in s.callers && s.callers[c].Claimed? && NotBy(c, b2) && NotBy(c, b3) && NotBy(c, b4)
    ensures var r := Next(Run(Attempted(s, c, b2, b3, true), b4), Complete(c));
            && c !in r.callers && r.refunds == s.refunds + 1 && r.lostWrites == s.lostWrites
            && r.request == Some(Request(COMPLETED, Attempts(s.request)))
            && (r.order.status.CANCELLING? || r.order.status.REFUNDED?)
  {
    ClaimantCalls(s, c, b2, b3, true);
    OthersStandBack(Attempted(s, c, b2, b3, true), c, b4);
  }

  /** A refused one: no refund, on record as FAILED, and the order is what it was before the claim, unless a delivery
      made it REFUNDED. */
  lemma {:induction false} RefusedAttempt(s: Sys, c: int, b2: seq<Step>, b3: seq<Step>, b4: seq<Step>)
    requires Inv(s) && c in s.callers && s.callers[c].Claimed? && NotBy(c, b2) && NotBy(c, b3) && NotBy(c, b4)
    ensures var back := Next(Run(Attempted(s, c, b2, b3, false), b4), RollBack(c));
            && back.refunds == s.refunds && back.lostWrites == s.lostWrites
            && (back.order == s.order.(status := s.callers[c].prior) || back.order.status.REFUNDED?)
            && c !in Next(back, MarkFailed(c)).callers
            && Next(back, MarkFailed(c)).request == Some(Request(FAILED, Attempts(s.request)))
  {
    ClaimantCalls(s, c, b2, b3, false);
    assert s.order.status.CANCELLING? || s.order.status.REFUNDED? by { assert Active(s, c); }
    OthersStandBack(Attempted(s, c, b2, b3, false), c, b4);
  }

  // ---------- The webhook ----------

  predicate Settled(row: Row) {
    row.status.REFUNDED? && row.paymentStatus.REFUNDED?
  }

  lemma {:induction false} SettledStays(s: Sys, steps: seq<Step>)
    requires Settled(s.order)
    ensures Run(s, steps).order == s.order
    decreases |steps|
  {
    if steps != [] {
      SettledStays(s, steps[..|steps| - 1]);
    }
  }

  lemma {:induction false} PaymentStays(s: Sys, steps: seq<Step>)
    ensures Run(s, steps).order.hasPayment == s.order.hasPayment
    decreases |steps|
  {
    if steps != [] {
      PaymentStays(s, steps[..|steps| - 1]);
    }
  }

  /** In every run: a delivery for an order with a payment makes it REFUNDED whatever its status, and it stays so. A
      second delivery changes nothing, and nobody claims the order or begins to. */
  lemma {:induction false} DeliverySettles(s: Sys, steps: seq<Step>, more: seq<Step>, other: int)
    requires Init(s) && s.order.hasPayment
    ensures var end := Run(Next(Run(s, steps), Webhook), more);
            && Settled(end.order) && Next(end, Webhook) == end
            && (!Active(end, other) ==> !Active(Next(end, Claim(other)), other))
            && (other !in end.callers ==> other !in Next(end, Begin(other)).callers)
  {
    RunKeepsInv(s, steps);
    PaymentStays(s, steps);
    SettledStays(Next(Run(s, steps), Webhook), more);
  }

  lemma {:induction false} WritesAreLostForGood(s: Sys, steps: seq<Step>)
    ensures Run(s, steps).lostWrites >= s.lostWrites && Run(s, steps).refunds >= s.refunds
    decreases |steps|
  {
    if steps != [] {
      WritesAreLostForGood(s, steps[..|steps| - 1]);
    }
  }

  lemma {:induction false} RunConcat(s: Sys, first: seq<Step>, second: seq<Step>)
    ensures Run(s, first + second) == Run(Run(s, first), second)
    decreases |second|
  {
    if second == [] {
      assert first + second == first;
    } else {
      var n := |second| - 1;
      assert (first + second)[..|first| + n] == first + second[..n];
      RunConcat(s, first, second[..n]);
    }
  }

  /** Once a refund was accepted, and none of its writes is lost, its delivery settles the order wherever it falls among
      the steps of the callers: the order ends REFUNDED, and the gateway refunds nothing more before or after. */
  lemma {:induction false} AcceptedRefundSettles(s: Sys, steps: seq<Step>, before: seq<Step>, more: seq<Step>)
    requires Init(s) && s.order.hasPayment && Run(s, steps).refunds == Run(s, steps).lostWrites + 1
    requires Run(Next(Run(Run(s, steps), before), Webhook), more).lostWrites == Run(s, steps).lostWrites
    ensures var end := Run(Next(Run(Run(s, steps), before), Webhook), more);
            Settled(end.order) && end.refunds == Run(s, steps).refunds
  {
    var r := Run(s, steps);
    var end := Run(Next(Run(r, before), Webhook), more);
    RunConcat(s, steps, before);
    DeliverySettles(s, steps + before, more, 0);
    RunConcat(s, steps + before, [Webhook]);
    assert [Webhook][..0] == [];
    assert Run(Run(r, before), [Webhook]) == Next(Run(r, before), Webhook);
    RunConcat(s, steps + before + [Webhook], more);
    RunKeepsInv(s, steps + before + [Webhook] + more);
    WritesAreLostForGood(r, before);
    WritesAreLostForGood(Next(Run(r, before), Webhook), more);
  }

  // ---------- When a call can begin ----------

  /** An order is CANCELLING only on account of a caller that is past its claim, or of a refund that stands. */
  ghost predicate Accounted(s: Sys) {
    && Inv(s) && s.order.hasPayment && (s.order.paymentStatus.PAID? || Settled(s.order))
    && (s.order.status.CANCELLING? ==> s.refunds == s.lostWrites + 1 || exists c :: Active(s, c))
  }

  lemma {:induction false} StepKeepsAccounted(s: Sys, step: Step)
    requires Accounted(s) && !step.UpsertThrows?
    ensures Accounted(Next(s, step))
  {
    StepKeepsInv(s, step);
    var r := Next(s, step);
    if r.order.status.CANCELLING? && r.refunds != r.lostWrites + 1 {
      if step.Webhook? || !Active(r, step.caller) {
        var c :| Active(s, c);
        assert Active(r, c);
      }
    }
  }

  lemma {:induction false} RunKeepsAccounted(s: Sys, steps: seq<Step>)
    requires Init(s) && s.order.hasPayment && s.order.paymentStatus.PAID? && !s.order.status.CANCELLING?
    requires forall i :: 0 <= i < |steps| ==> !steps[i].UpsertThrows?
    ensures Accounted(Run(s, steps))
    decreases |steps|
  {
    if steps != [] {
      RunKeepsAccounted(s, steps[..|steps| - 1]);
      StepKeepsAccounted(Run(s, steps[..|steps| - 1]), steps[|steps| - 1]);
    }
  }

  /** In every run from a paid order in which no upsert throws: a new call gets past the checks exactly if the order is
      not settled, no refund stands, and no other caller is past its claim. */
  lemma {:induction false} OpenOrderIff(s: Sys, steps: seq<Step>, c: int)
    requires Init(s) && s.order.hasPayment && s.order.paymentStatus.PAID? && !s.order.status.CANCELLING?
    requires forall i :: 0 <= i < |steps| ==> !steps[i].UpsertThrows?
    requires c !in Run(s, steps).callers
    ensures var r := Run(s, steps);
            c in Next(r, Begin(c)).callers
            <==> !Settled(r.order) && r.refunds == r.lostWrites && forall d :: !Active(r, d)
  {
    RunKeepsAccounted(s, steps);
  }

  // ---------- A lost write lets the customer be refunded twice ----------

  const PAID_ORDER := Sys(Row.Row(OrderStatus.CONFIRMED, PAID, true), None, map[], 0, 0)

  const LOST_WRITE := [Begin(1), Claim(1), Upsert(1), Gateway(1, true), CompleteThrows(1, false), RollBack(1),
                       MarkFailed(1), Begin(2), Claim(2), Upsert(2), Gateway(2, true)]

  lemma {:induction false} RunOneMore(s: Sys, steps: seq<Step>, i: nat)
    requires i < |steps|
    ensures Run(s, steps[..i + 1]) == Next(Run(s, steps[..i]), steps[i])
    ensures i == 0 ==> Run(s, steps[..i]) == s
  {
    assert steps[..i + 1][..i] == steps[..i];
  }

  /** The bound is met: the retry after one lost write refunds a second time. */
  lemma {:induction false} LostWriteRefundsTwice(steps: seq<Step>)
    requires steps == LOST_WRITE
    ensures Run(PAID_ORDER, steps).refunds == 2 && Run(PAID_ORDER, steps).lostWrites == 1
  {
    var s := PAID_ORDER;
    FirstAttemptLosesWrite(s, steps);
    RunOneMore(s, steps, 7);
    RunOneMore(s, steps, 8);
    RunOneMore(s, steps, 9);
    RunOneMore(s, steps, 10);
    assert steps[..11] == steps;
  }

  lemma {:induction false} FirstAttemptLosesWrite(s: Sys, steps: seq<Step>)
    requires s == PAID_ORDER && steps == LOST_WRITE
    ensures Run(s, steps[..7]) == Sys(s.order, Some(Request(RefundStatus.FAILED, 0)), map[], 1, 1)
  {
    RunOneMore(s, steps, 0);
    RunOneMore(s, steps, 1);
    RunOneMore(s, steps, 2);
    RunOneMore(s, steps, 3);
    RunOneMore(s, steps, 4);
    RunOneMore(s, steps, 5);
    RunOneMore(s, steps, 6);
  }

  // ---------- An order that no caller can claim any more ----------

  /** Nobody is past a claim, and the order is in a state that no caller can claim. */
  ghost predicate Closed(s: Sys) {
    && (forall c :: !Active(s, c))
    && (s.order.status.CANCELLING? || s.order.status.REFUNDED?)
  }

  /** In a closed order all that is left is that the webhook arrives and failed callers mark the request. */
  lemma {:induction false} ClosedStays(s: Sys, step: Step)
    requires Inv(s) && Closed(s)
    ensures Inv(Next(s, step)) && Closed(Next(s, step)) && Next(s, step).refunds == s.refunds
    ensures forall c :: c in Next(s, step).callers ==> c in s.callers && Next(s, step).callers[c] == s.callers[c]
    ensures Next(s, step).request
         == if step.MarkFailed? && step.caller in s.callers && s.callers[step.caller].RolledBack? && s.request.Some?
            then Some(s.request.value.(status := FAILED)) else s.request
  {
    StepKeepsInv(s, step);
    OnlyClaimActivates(s, step);
    assert !step.Webhook? ==> !Active(s, step.caller);
  }

  /** A request upsert that throws after the claim strands the order: nothing but the webhook ever moves it out of
      CANCELLING, and no caller reaches the gateway again. */
  lemma {:induction false} ThrowingUpsertStrandsOrder(s: Sys, steps: seq<Step>, c: int, more: seq<Step>)
    requires Init(s) && c in Run(s, steps).callers && Run(s, steps).callers[c].Claimed?
    ensures var stranded := Run(Next(Run(s, steps), UpsertThrows(c)), more);
            && Inv(stranded) && Closed(stranded) && stranded.refunds == Run(s, steps).refunds
    decreases |more|
  {
    var r := Run(s, steps);
    RunKeepsInv(s, steps);
    if more == [] {
      StepKeepsInv(r, UpsertThrows(c));
      assert Active(r, c);
      OnlyClaimActivates(r, UpsertThrows(c));
    } else {
      ThrowingUpsertStrandsOrder(s, steps, c, more[..|more| - 1]);
      ClosedStays(Run(Next(r, UpsertThrows(c)), more[..|more| - 1]), more[|more| - 1]);
    }
  }

  // ---------- The request row ----------

  predicate NoneRolledBack(s: Sys) {
    forall c :: c in s.callers ==> !s.callers[c].RolledBack?
  }

  /** What is left of the request of a closed order: COMPLETED, unless a failed caller has marked it or still will. */
  ghost predicate Marks(s: Sys, clean: bool) {
    && Inv(s) && Closed(s) && s.request.Some?
    && (if clean then NoneRolledBack(s) && s.request.value.status.COMPLETED?
        else NoneRolledBack(s) ==> s.request.value.status.FAILED?)
  }

  lemma {:induction false} MarksStay(s: Sys, steps: seq<Step>, clean: bool)
    requires Marks(s, clean)
    ensures Marks(Run(s, steps), clean)
    decreases |steps|
  {
    if steps != [] {
      var mid, step := Run(s, steps[..|steps| - 1]), steps[|steps| - 1];
      MarksStay(s, steps[..|steps| - 1], clean);
      ClosedStays(mid, step);
      if !clean && NoneRolledBack(Next(mid, step)) && !NoneRolledBack(mid) {
        var d :| d in mid.callers && mid.callers[d].RolledBack?;
        assert d !in Next(mid, step).callers;
      }
    }
  }

  /** An accepted refund whose caller completes is on record as COMPLETED, once no caller is left, exactly if no failed
      caller had yet to mark the request when it completed. */
  lemma {:induction false} AcceptedRefundIsRecordedIff(s: Sys, steps: seq<Step>, c: int, more: seq<Step>)
    requires Init(s) && c in Run(s, steps).callers && Run(s, steps).callers[c].Refunded?
    requires Run(Next(Run(s, steps), Complete(c)), more).callers == map[]
    ensures var end := Run(Next(Run(s, steps), Complete(c)), more);
            end.request.Some? && (end.request.value.status.COMPLETED? <==> NoneRolledBack(Run(s, steps)))
  {
    var r := Run(s, steps);
    var done := Next(r, Complete(c));
    RunKeepsInv(s, steps);
    StepKeepsInv(r, Complete(c));
    OnlyClaimActivates(r, Complete(c));
    assert Active(r, c);
    if !NoneRolledBack(r) {
      var d :| d in r.callers && r.callers[d].RolledBack?;
      assert d in done.callers && done.callers[d].RolledBack?;
    }
    MarksStay(done, more, NoneRolledBack(r));
  }

  /** The input: the first caller, refused, marks the request after the second completed. */
  const LATE_MARK := [Begin(1), Claim(1), Upsert(1), Gateway(1, false), RollBack(1),
                      Begin(2), Claim(2), Upsert(2), Gateway(2, true), Complete(2), MarkFailed(1)]

  lemma {:induction false} LateMarkHidesRefund(steps: seq<Step>)
    requires steps == LATE_MARK
    ensures Run(PAID_ORDER, steps).refunds == 1 && Run(PAID_ORDER, steps).callers == map[]
    ensures Run(PAID_ORDER, steps).lostWrites == 0
    ensures Run(PAID_ORDER, steps).request == Some(Request(RefundStatus.FAILED, 1))
  {
    SecondCallerRefunded(PAID_ORDER, steps);
    RunOneMore(PAID_ORDER, steps, 9);
    RunOneMore(PAID_ORDER, steps, 10);
    assert steps[..11] == steps;
  }

  lemma {:induction false} SecondCallerRefunded(s: Sys, steps: seq<Step>)
    requires s == PAID_ORDER && steps == LATE_MARK
    ensures Run(s, steps[..9])
         == Sys(s.order.(status := OrderStatus.CANCELLING), Some(Request(RefundStatus.PROCESSING, 1)),
                map[1 := RolledBack(OrderStatus.CONFIRMED), 2 := Refunded(OrderStatus.CONFIRMED)], 1, 0)
  {
    SecondCallerClaimed(s, steps);
    RunOneMore(s, steps, 7);
    RunOneMore(s, steps, 8);
  }

  lemma {:induction false} SecondCallerClaimed(s: Sys, steps: seq<Step>)
    requires s == PAID_ORDER && steps == LATE_MARK
    ensures Run(s, steps[..7])
         == Sys(s.order.(status := OrderStatus.CANCELLING), Some(Request(RefundStatus.PROCESSING, 0)),
                map[1 := RolledBack(OrderStatus.CONFIRMED), 2 := Claimed(OrderStatus.CONFIRMED)], 0, 0)
  {
    FirstCallerRefused(s, steps);
    RunOneMore(s, steps, 5);
    RunOneMore(s, steps, 6);
  }

  lemma {:induction false} FirstCallerRefused(s: Sys, steps: seq<Step>)
    requires s == PAID_ORDER && steps == LATE_MARK
    ensures Run(s, steps[..5])
         == Sys(s.order, Some(Request(RefundStatus.PROCESSING, 0)), map[1 := RolledBack(OrderStatus.CONFIRMED)], 0, 0)
  {
    RunOneMore(s, steps, 0);
    RunOneMore(s, steps, 1);
    RunOneMore(s, steps, 2);
    RunOneMore(s, steps, 3);
    RunOneMore(s, steps, 4);
  }
}
