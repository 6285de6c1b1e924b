/** refundStripePayment as the code runs it: one statement after the other, with steps of other callers and of the
    webhook between any two of them. */
module StripeRefundService {
  import opened Schema
  import opened StripeRefund

  datatype Result = Returned | Threw

  /** The order row, its refund request, and how far each running call has come. */
  class PaymentTables {
    var order: StripeRefund.Row
    var request: Option<Request>
    var callers: map<int, Phase>
    ghost var refunds: nat
    ghost var lostWrites: nat

    constructor (s: Sys)
      ensures Contents() == s
    {
      order, request, callers := s.order, s.request, s.callers;
      refunds, lostWrites := s.refunds, s.lostWrites;
    }

    ghost function Contents(): Sys
      reads this
    {
      Sys(order, request, callers, refunds, lostWrites)
    }

    /** The read of the order and the checks on it. */
    method FindOrder(c: int) returns (ok: bool)
      requires c !in callers
      modifies this
      ensures Contents() == Next(old(Contents()), Begin(c)) && (ok <==> c in callers)
      ensures ok ==> callers[c] == Read(order.status)
    {
      ok := order.hasPayment && order.paymentStatus.PAID? && !order.status.CANCELLING? && !order.status.REFUNDED?;
      if ok {
        callers := callers[c := Read(order.status)];
      }
    }

    /** updateMany where the status is still `prior` and the order is still PAID. */
    method ClaimOrder(c: int, prior: OrderStatus) returns (claimed: bool)
      requires c in callers && callers[c] == Read(prior)
      modifies this
      ensures Contents() == Next(old(Contents()), Claim(c)) && (claimed <==> c in callers)
      ensures claimed ==> callers[c] == Claimed(prior)
    {
      claimed := order.status == prior && order.paymentStatus.PAID?;
      if claimed {
        order, callers := order.(status := CANCELLING), callers[c := Claimed(prior)];
      } else {
        callers := callers - {c};
      }
    }

    /** The upsert of the request, which may throw; it is outside the try block. */
    method UpsertRequest(c: int, prior: OrderStatus, throws: bool)
      requires c in callers && callers[c] == Claimed(prior)
      modifies this
      ensures Contents() == Next(old(Contents()), if throws then UpsertThrows(c) else Upsert(c))
      ensures if throws then c !in callers else c in callers && callers[c] == Requested(prior) && request.Some?
    {
      if throws {
        callers := callers - {c};
        return;
      }
      request := Some(Request(RefundStatus.PROCESSING,
                              if request.Some? then request.value.retryCount + 1 else 0));
      callers := callers[c := Requested(prior)];
    }

    /** stripe.refunds.create, whose answer is `accepts`. */
    method CallGateway(c: int, prior: OrderStatus, accepts: bool)
      requires c in callers && callers[c] == Requested(prior)
      modifies this
      ensures Contents() == Next(old(Contents()), Gateway(c, accepts)) && c in callers && request == old(request)
      ensures callers[c] == if accepts then Refunded(prior) else Refused(prior)
    {
      if accepts {
        refunds := refunds + 1;
        callers := callers[c := Refunded(prior)];
      } else {
        callers := callers[c := Refused(prior)];
      }
    }

    /** The two writes after an accepted refund, of which `writes` succeed. */
    method RecordSuccess(c: int, prior: OrderStatus, writes: nat) returns (ok: bool)
      requires c in callers && callers[c] == Refunded(prior) && request.Some? && writes <= 2
      modifies this
      ensures ok <==> writes == 2
      ensures Contents() == Next(old(Contents()), if ok then Complete(c) else CompleteThrows(c, writes == 1))
      ensures (ok <==> c !in callers) && (!ok ==> callers[c] == Refused(prior)) && request.Some?
    {
      ok := writes == 2;
      if writes >= 1 {
        request := Some(request.value.(status := COMPLETED));
      }
      if ok {
        callers := callers - {c};
      } else {
        lostWrites := lostWrites + 1;
        callers := callers[c := Refused(prior)];
      }
    }

    /** updateMany where the order is still CANCELLING. */
    method PutBackStatus(c: int, prior: OrderStatus)
      requires c in callers && callers[c] == Refused(prior)
      modifies this
      ensures Contents() == Next(old(Contents()), RollBack(c)) && c in callers && callers[c] == RolledBack(prior)
      ensures request == old(request)
    {
      if order.status.CANCELLING? {
        order := order.(status := prior);
      }
      callers := callers[c := RolledBack(prior)];
    }

    method MarkRequestFailed(c: int, prior: OrderStatus)
      requires c in callers && callers[c] == RolledBack(prior) && request.Some?
      modifies this
      ensures Contents() == Next(old(Contents()), MarkFailed(c)) && c !in callers
    {
      request, callers := Some(request.value.(status := FAILED)), callers - {c};
    }

    /** The charge.refunded delivery for this order. */
    method ChargeRefunded()
      modifies this
      ensures Contents() == Next(old(Contents()), Webhook)
    {
      if order.hasPayment && !order.paymentStatus.REFUNDED? {
        order := order.(status := OrderStatus.REFUNDED, paymentStatus := PaymentStatus.REFUNDED);
      }
    }

    /** Any one step. */
    method Perform(step: Step)
      modifies this
      ensures Contents() == Next(old(Contents()), step)
    {
      if step.Webhook? {
        ChargeRefunded();
        return;
      }
      var c := step.caller;
      if step.Begin? && c !in callers {
        var _ := FindOrder(c);
      } else if c in callers {
        var phase := callers[c];
        match step {
          case Claim(_) => if phase.Read? { var _ := ClaimOrder(c, phase.prior); }
          case Upsert(_) => if phase.Claimed? { UpsertRequest(c, phase.prior, false); }
          case UpsertThrows(_) => if phase.Claimed? { UpsertRequest(c, phase.prior, true); }
          case Gateway(_, accepts) => if phase.Requested? { CallGateway(c, phase.prior, accepts); }
          case Complete(_) =>
            if phase.Refunded? && request.Some? { var _ := RecordSuccess(c, phase.prior, 2); }
          case CompleteThrows(_, marked) =>
            if phase.Refunded? && request.Some? { var _ := RecordSuccess(c, phase.prior, if marked then 1 else 0); }
          case RollBack(_) => if phase.Refused? { PutBackStatus(c, phase.prior); }
          case MarkFailed(_) => if phase.RolledBack? && request.Some? { MarkRequestFailed(c, phase.prior); }
          case Begin(_) =>
        }
      }
    }

    /** What happens between two statements of caller c. */
    method Others(c: int, steps: seq<Step>)
      requires NotBy(c, steps)
      modifies this
      ensures Contents() == Run(old(Contents()), steps)
      ensures (c in callers <==> c in old(callers)) && (c in callers ==> callers[c] == old(callers)[c])
      ensures old(request).Some? ==> request.Some?
    {
      var i := 0;
      while i < |steps|
        invariant i <= |steps| && Contents() == Run(old(Contents()), steps[..i])
        invariant (c in callers <==> c in old(callers)) && (c in callers ==> callers[c] == old(callers)[c])
        invariant old(request).Some? ==> request.Some?
      {
        OthersLeaveAlone(Contents(), c, steps[i]);
        Perform(steps[i]);
        assert steps[..i + 1][..i] == steps[..i];
        i := i + 1;
      }
      assert steps[..i] == steps;
    }
  }

  lemma {:induction false} OthersLeaveAlone(s: Sys, c: int, step: Step)
    requires step.Webhook? || step.caller != c
    ensures c in Next(s, step).callers <==> c in s.callers
    ensures c in s.callers ==> Next(s, step).callers[c] == s.callers[c]
    ensures s.request.Some? ==> Next(s, step).request.Some?
  {
  }

  /** The caller's own steps after the gateway has answered: a refusal, or a refund of which 0, 1 or both of the later
      writes succeed. */
  ghost predicate IsEnding(c: int, r: Result, accepts: bool, writes: nat, own: seq<Step>) {
    if !accepts then r.Threw? && own == [RollBack(c), MarkFailed(c)]
    else if writes < 2 then r.Threw? && own == [CompleteThrows(c, writes == 1), RollBack(c), MarkFailed(c)]
    else r.Returned? && own == [Complete(c)]
  }

  /** The caller's own steps, for each way a call can go: a failed check or a lost race, an upsert that throws, or an
      attempt at the gateway. */
  ghost predicate IsScript(c: int, r: Result, throws: bool, accepts: bool, writes: nat, own: seq<Step>) {
    || (r.Threw? && (own == [Begin(c)] || own == [Begin(c), Claim(c)]))
    || (r.Threw? && throws && own == [Begin(c), Claim(c), UpsertThrows(c)])
    || (&& !throws && |own| > 4 && own[..4] == [Begin(c), Claim(c), Upsert(c), Gateway(c, accepts)]
        && IsEnding(c, r, accepts, writes, own[4..]))
  }

  /** A run of the machine in which the steps of caller c are `own`, in this order. */
  ghost predicate Interleaves(before: Sys, after: Sys, c: int, own: seq<Step>, trace: seq<Step>) {
    && after == Run(before, trace)
    && Own(trace, c) == own
  }

  function Own(trace: seq<Step>, c: int): seq<Step> {
    if trace == [] then []
    else
      var last := trace[|trace| - 1];
      Own(trace[..|trace| - 1], c) + if last.Webhook? || last.caller != c then [] else [last]
  }

  lemma {:induction false} OwnOfOthers(trace: seq<Step>, c: int, steps: seq<Step>)
    requires NotBy(c, steps)
    ensures Own(trace + steps, c) == Own(trace, c)
    decreases |steps|
  {
    if steps == [] {
      assert trace + steps == trace;
    } else {
      var n := |steps| - 1;
      assert (trace + steps)[..|trace| + n] == trace + steps[..n];
      OwnOfOthers(trace, c, steps[..n]);
    }
  }

  /** A statement of caller c, after whatever the others did since its last one. */
  lemma {:induction false} OneStatement(before: Sys, now: Sys, after: Sys, c: int, others: seq<Step>, step: Step)
    requires NotBy(c, others) && now == Run(before, others)
    requires !step.Webhook? && step.caller == c && after == Next(now, step)
    ensures Interleaves(before, after, c, [step], others + [step])
  {
    OwnOfOthers([], c, others);
    assert [] + others == others;
    assert (others + [step])[..|others|] == others;
  }

  lemma {:induction false} OwnConcat(first: seq<Step>, second: seq<Step>, c: int)
    ensures Own(first + second, c) == Own(first, c) + Own(second, c)
    decreases |second|
  {
    if second == [] {
      assert first + second == first;
    } else {
      var n := |second| - 1;
      assert (first + second)[..|first| + n] == first + second[..n];
      OwnConcat(first, second[..n], c);
    }
  }

  lemma {:induction false} InTurn(before: Sys, mid: Sys, after: Sys, c: int, own1: seq<Step>, trace1: seq<Step>,
                                  own2: seq<Step>, trace2: seq<Step>)
    requires Interleaves(before, mid, c, own1, trace1) && Interleaves(mid, after, c, own2, trace2)
    ensures Interleaves(before, after, c, own1 + own2, trace1 + trace2)
  {
    RunConcat(before, trace1, trace2);
    OwnConcat(trace1, trace2, c);
  }

  /** The checks and the claim. */
  method ClaimFor(db: PaymentTables, c: int, b0: seq<Step>, b1: seq<Step>)
    returns (claimed: bool, prior: OrderStatus, ghost own: seq<Step>, ghost trace: seq<Step>)
    requires c !in db.callers && NotBy(c, b0) && NotBy(c, b1)
    modifies db
    ensures Interleaves(old(db.Contents()), db.Contents(), c, own, trace)
    ensures claimed ==> own == [Begin(c), Claim(c)]
    ensures !claimed ==> c !in db.callers && (own == [Begin(c)] || own == [Begin(c), Claim(c)])
    ensures claimed ==> c in db.callers && db.callers[c] == Claimed(prior)
  {
    ghost var before := db.Contents();
    prior := db.order.status;
    db.Others(c, b0);
    ghost var now := db.Contents();
    claimed := db.FindOrder(c);
    ghost var mid := db.Contents();
    OneStatement(before, now, mid, c, b0, Begin(c));
    own, trace := [Begin(c)], b0 + [Begin(c)];
    if !claimed {
      return;
    }
    prior := db.order.status;
    db.Others(c, b1);
    now := db.Contents();
    claimed := db.ClaimOrder(c, prior);
    OneStatement(mid, now, db.Contents(), c, b1, Claim(c));
    InTurn(before, mid, db.Contents(), c, own, trace, [Claim(c)], b1 + [Claim(c)]);
    own, trace := own + [Claim(c)], trace + (b1 + [Claim(c)]);
  }

  /** The request row and the gateway call. */
  method CallFor(db: PaymentTables, c: int, prior: OrderStatus, b2: seq<Step>, b3: seq<Step>, throws: bool,
                 accepts: bool)
    returns (called: bool, ghost own: seq<Step>, ghost trace: seq<Step>)
    requires c in db.callers && db.callers[c] == Claimed(prior) && NotBy(c, b2) && NotBy(c, b3)
    modifies db
    ensures Interleaves(old(db.Contents()), db.Contents(), c, own, trace) && called == !throws
    ensures throws ==> own == [UpsertThrows(c)] && c !in db.callers
    ensures !throws ==>
              && own == [Upsert(c), Gateway(c, accepts)] && db.request.Some?
              && c in db.callers && db.callers[c] == if accepts then Refunded(prior) else Refused(prior)
  {
    ghost var before := db.Contents();
    db.Others(c, b2);
    ghost var now := db.Contents();
    db.UpsertRequest(c, prior, throws);
    ghost var mid := db.Contents();
    ghost var step := if throws then UpsertThrows(c) else Upsert(c);
    OneStatement(before, now, mid, c, b2, step);
    own, trace, called := [step], b2 + [step], !throws;
    if throws {
      return;
    }
    db.Others(c, b3);
    now := db.Contents();
    db.CallGateway(c, prior, accepts);
    OneStatement(mid, now, db.Contents(), c, b3, Gateway(c, accepts));
    InTurn(before, mid, db.Contents(), c, own, trace, [Gateway(c, accepts)], b3 + [Gateway(c, accepts)]);
    own, trace := own + [Gateway(c, accepts)], trace + (b3 + [Gateway(c, accepts)]);
  }

  /** The two writes after an accepted refund. */
  method RecordFor(db: PaymentTables, c: int, prior: OrderStatus, b4: seq<Step>, writes: nat)
    returns (ok: bool, ghost own: seq<Step>, ghost trace: seq<Step>)
    requires c in db.callers && db.callers[c] == Refunded(prior) && db.request.Some? && writes <= 2 && NotBy(c, b4)
    modifies db
    ensures Interleaves(old(db.Contents()), db.Contents(), c, own, trace)
    ensures (ok <==> writes == 2) && own == [if ok then Complete(c) else CompleteThrows(c, writes == 1)]
    ensures if ok then c !in db.callers else c in db.callers && db.callers[c] == Refused(prior) && db.request.Some?
  {
    ghost var before := db.Contents();
    db.Others(c, b4);
    ghost var now := db.Contents();
    ok := db.RecordSuccess(c, prior, writes);
    ghost var step := if ok then Complete(c) else CompleteThrows(c, writes == 1);
    OneStatement(before, now, db.Contents(), c, b4, step);
    own, trace := [step], b4 + [step];
  }

  /** The catch block. */
  method UndoFor(db: PaymentTables, c: int, prior: OrderStatus, b5: seq<Step>, b6: seq<Step>)
    returns (ghost own: seq<Step>, ghost trace: seq<Step>)
    requires c in db.callers && db.callers[c] == Refused(prior) && db.request.Some? && NotBy(c, b5) && NotBy(c, b6)
    modifies db
    ensures Interleaves(old(db.Contents()), db.Contents(), c, own, trace)
    ensures own == [RollBack(c), MarkFailed(c)] && c !in db.callers
  {
    ghost var before := db.Contents();
    db.Others(c, b5);
    ghost var now := db.Contents();
    db.PutBackStatus(c, prior);
    ghost var mid := db.Contents();
    OneStatement(before, now, mid, c, b5, RollBack(c));
    db.Others(c, b6);
    now := db.Contents();
    db.MarkRequestFailed(c, prior);
    OneStatement(mid, now, db.Contents(), c, b6, MarkFailed(c));
    own, trace := [RollBack(c)], b5 + [RollBack(c)];
    InTurn(before, mid, db.Contents(), c, own, trace, [MarkFailed(c)], b6 + [MarkFailed(c)]);
    own, trace := own + [MarkFailed(c)], trace + (b6 + [MarkFailed(c)]);
  }

  /** All that follows the gateway's answer. */
  method FinishFor(db: PaymentTables, c: int, prior: OrderStatus, accepts: bool, b4: seq<Step>, b5: seq<Step>,
                   b6: seq<Step>, writes: nat)
    returns (r: Result, ghost own: seq<Step>, ghost trace: seq<Step>)
    requires c in db.callers && db.callers[c] == (if accepts then Refunded(prior) else Refused(prior))
    requires db.request.Some? && writes <= 2 && NotBy(c, b4) && NotBy(c, b5) && NotBy(c, b6)
    modifies db
    ensures Interleaves(old(db.Contents()), db.Contents(), c, own, trace) && IsEnding(c, r, accepts, writes, own)
    ensures c !in db.callers
  {
    if !accepts {
      own, trace := UndoFor(db, c, prior, b5, b6);
      return Threw, own, trace;
    }
    ghost var before := db.Contents();
    var ok;
    ok, own, trace := RecordFor(db, c, prior, b4, writes);
    if ok {
      return Returned, own, trace;
    }
    ghost var mid := db.Contents();
    ghost var own2, trace2 := UndoFor(db, c, prior, b5, b6);
    InTurn(before, mid, db.Contents(), c, own, trace, own2, trace2);
    own, trace, r := own + own2, trace + trace2, Threw;
    assert own == [CompleteThrows(c, writes == 1), RollBack(c), MarkFailed(c)];
  }

  /** One call: `between` is what others do before each statement; `throws`, `accepts` and `writes` are what the upsert,
      the gateway and the last two writes will do. However they interleave, the call is a run of the machine with one of
      these scripts. */
  method RefundStripePayment(db: PaymentTables, c: int, between: seq<seq<Step>>, throws: bool, accepts: bool,
                             writes: nat)
    returns (r: Result, ghost own: seq<Step>, ghost trace: seq<Step>)
    requires c !in db.callers && |between| == 7 && writes <= 2
    requires forall i :: 0 <= i < |between| ==> NotBy(c, between[i])
    modifies db
    ensures Interleaves(old(db.Contents()), db.Contents(), c, own, trace)
    ensures IsScript(c, r, throws, accepts, writes, own)
    ensures c !in db.callers
  {
    ghost var before := db.Contents();
    var claimed, prior;
    claimed, prior, own, trace := ClaimFor(db, c, between[0], between[1]);
    if !claimed {
      return Threw, own, trace;
    }
    ghost var mid := db.Contents();
    var called;
    ghost var own2, trace2;
    called, own2, trace2 := CallFor(db, c, prior, between[2], between[3], throws, accepts);
    InTurn(before, mid, db.Contents(), c, own, trace, own2, trace2);
    own, trace, mid := own + own2, trace + trace2, db.Contents();
    if !called {
      return Threw, own, trace;
    }
    r, own2, trace2 := FinishFor(db, c, prior, accepts, between[4], between[5], between[6], writes);
    InTurn(before, mid, db.Contents(), c, own, trace, own2, trace2);
    assert (own + own2)[..4] == own && (own + own2)[4..] == own2;
    own, trace := own + own2, trace + trace2;
  }
}
