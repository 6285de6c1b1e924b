/** RefundRetryService: the hourly cron over stuck refund requests.

A tick is exclusive (it runs under the cron lock), but the manual refund path does not take that lock: between any two
statements of a tick it may reopen, bump, complete or fail rows. The gateway answers as it likes, and writes may fail.
*/
module RefundRetry {
  import opened Sums
  import opened Schema

  const MAX_REFUND_RETRIES := 5
  const RETRY_AFTER_MS := 60 * 60 * 1000
  const RETRY_BATCH_SIZE := 50

  datatype Status = PENDING | PROCESSING | COMPLETED | FAILED

  datatype Destination = ORIGINAL_PAYMENT | WALLET

  datatype Request = Request(status: Status, destination: Destination, hasPayment: bool, retryCount: nat,
                             updatedAt: int)

  /** The rows findMany may return. */
  predicate Stuck(r: Request, now: int) {
    && r.status.PROCESSING? && r.destination.ORIGINAL_PAYMENT? && r.updatedAt <= now - RETRY_AFTER_MS
    && r.retryCount < MAX_REFUND_RETRIES
  }

  /** What findMany returns: the stuck rows, oldest first, all of them unless the batch is full. */
  ghost predicate Picked(rows: map<int, Request>, now: int, ids: seq<int>) {
    && |ids| <= RETRY_BATCH_SIZE
    && (forall i, j :: 0 <= i < j < |ids| ==> ids[i] != ids[j])
    && (forall i, j :: 0 <= i < j < |ids| && ids[i] in rows && ids[j] in rows ==>
          rows[ids[i]].updatedAt <= rows[ids[j]].updatedAt)
    && (forall id :: id in ids ==> id in rows && Stuck(rows[id], now))
    && (forall id, other :: id in ids && other in rows && other !in ids && Stuck(rows[other], now) ==>
          rows[id].updatedAt <= rows[other].updatedAt)
    && (|ids| < RETRY_BATCH_SIZE ==> forall id :: id in rows && Stuck(rows[id], now) ==> id in ids)
  }

  /** How an attempt ends: the gateway accepts and that is written, only the attempt is written, or nothing is. */
  datatype Answer = Accepted | Refused | Unwritten

  /** The columns that retryOne writes, from the row as it was picked into the row as it is. */
  function Retried(current: Request, picked: Request, answer: Answer, now: int): Request {
    if answer.Unwritten? then current
    else
      current.(status := if !picked.hasPayment then FAILED else if answer.Accepted? then COMPLETED else current.status,
               retryCount := picked.retryCount + 1, updatedAt := now)
  }

  /** The loop over the picked rows when nobody else writes. */
  function RetryAll(rows: map<int, Request>, ids: seq<int>, answers: seq<Answer>, now: int): map<int, Request>
    requires |answers| == |ids|
  {
    if ids == [] then rows
    else
      var n := |ids| - 1;
      var mid := RetryAll(rows, ids[..n], answers[..n], now);
      if ids[n] in mid then mid[ids[n] := Retried(mid[ids[n]], mid[ids[n]], answers[n], now)] else mid
  }

  /** markAndAlertPermanentFailures. */
  function MarkFailures(rows: map<int, Request>): map<int, Request> {
    map id | id in rows ::
      if rows[id].status.PROCESSING? && rows[id].retryCount >= MAX_REFUND_RETRIES then rows[id].(status := FAILED)
      else rows[id]
  }

  /** runOnce when nobody else writes: with nothing stuck it returns before marking anything. */
  function Tick(rows: map<int, Request>, ids: seq<int>, answers: seq<Answer>, now: int): map<int, Request>
    requires |answers| == |ids|
  {
    if ids == [] then rows else MarkFailures(RetryAll(rows, ids, answers, now))
  }

  // ---------- Progress of a tick ----------

  /** Attempts the cron still owes a row. */
  function Budget(r: Request): int {
    if r.status.PROCESSING? && r.destination.ORIGINAL_PAYMENT? && r.retryCount < MAX_REFUND_RETRIES then
      MAX_REFUND_RETRIES - r.retryCount
    else 0
  }

  ghost function BudgetOf(): (int, Request) -> int {
    (id: int, r: Request) => Budget(r)
  }

  ghost function TotalBudget(rows: map<int, Request>): int {
    SumRows(rows, BudgetOf())
  }

  ghost predicate Distinct(ids: seq<int>) {
    forall i, j :: 0 <= i < j < |ids| ==> ids[i] != ids[j]
  }

  function Written(answers: seq<Answer>): nat {
    if answers == [] then 0
    else Written(answers[..|answers| - 1]) + if answers[|answers| - 1].Unwritten? then 0 else 1
  }

  lemma {:induction false} RetryAllFrame(rows: map<int, Request>, ids: seq<int>, answers: seq<Answer>, now: int)
    requires |answers| == |ids| && Distinct(ids) && forall id :: id in ids ==> id in rows
    ensures RetryAll(rows, ids, answers, now).Keys == rows.Keys
    ensures forall id :: id in rows && id !in ids ==> RetryAll(rows, ids, answers, now)[id] == rows[id]
    decreases |ids|
  {
    if ids != [] {
      var n := |ids| - 1;
      RetryAllFrame(rows, ids[..n], answers[..n], now);
      assert ids[n] in ids && ids[n] !in ids[..n];
      assert forall id :: id in ids <==> id in ids[..n] || id == ids[n];
    }
  }

  /** What the loop makes of each picked row. */
  lemma {:induction false} RetryAllAt(rows: map<int, Request>, ids: seq<int>, answers: seq<Answer>, now: int, i: nat)
    requires |answers| == |ids| && Distinct(ids) && i < |ids| && forall id :: id in ids ==> id in rows
    ensures ids[i] in RetryAll(rows, ids, answers, now)
    ensures RetryAll(rows, ids, answers, now)[ids[i]] == Retried(rows[ids[i]], rows[ids[i]], answers[i], now)
    decreases |ids|
  {
    var n := |ids| - 1;
    assert ids[n] !in ids[..n];
    RetryAllFrame(rows, ids[..n], answers[..n], now);
    if i < n {
      RetryAllAt(rows, ids[..n], answers[..n], now, i);
    }
  }

  /** An attempt that is written on a row with budget left uses up at least one. */
  lemma {:induction false} AttemptSpends(rows: map<int, Request>, id: int, answer: Answer, now: int)
    requires id in rows && Budget(rows[id]) > 0
    ensures TotalBudget(rows[id := Retried(rows[id], rows[id], answer, now)])
         <= TotalBudget(rows) - if answer.Unwritten? then 0 else 1
  {
    SumRowsUpdate(rows, BudgetOf(), id, Retried(rows[id], rows[id], answer, now));
  }

  lemma {:induction false} RetryAllSpends(rows: map<int, Request>, ids: seq<int>, answers: seq<Answer>, now: int)
    requires |answers| == |ids| && Distinct(ids)
    requires forall id :: id in ids ==> id in rows && Budget(rows[id]) > 0
    ensures TotalBudget(RetryAll(rows, ids, answers, now)) <= TotalBudget(rows) - Written(answers)
    decreases |ids|
  {
    if ids != [] {
      var n := |ids| - 1;
      assert ids[n] in ids && ids[n] !in ids[..n];
      RetryAllSpends(rows, ids[..n], answers[..n], now);
      RetryAllFrame(rows, ids[..n], answers[..n], now);
      AttemptSpends(RetryAll(rows, ids[..n], answers[..n], now), ids[n], answers[n], now);
    }
  }

  lemma {:induction false} MarkingCostsNothing(rows: map<int, Request>)
    ensures TotalBudget(MarkFailures(rows)) == TotalBudget(rows)
  {
    SumRowsSame(rows, MarkFailures(rows), BudgetOf());
  }

  lemma {:induction false} AllWritten(answers: seq<Answer>)
    requires forall i :: 0 <= i < |answers| ==> !answers[i].Unwritten?
    ensures Written(answers) == |answers|
  {
    if answers != [] {
      AllWritten(answers[..|answers| - 1]);
    }
  }

  /** A tick uses up at least one of the remaining attempts for each of its attempts that is written: at least k if it
      picks k rows and no write fails, whatever the gateway answers. */
  lemma {:induction false} TickMakesProgress(rows: map<int, Request>, ids: seq<int>, answers: seq<Answer>, now: int)
    requires Picked(rows, now, ids) && |answers| == |ids|
    ensures TotalBudget(Tick(rows, ids, answers, now)) <= TotalBudget(rows) - Written(answers)
    ensures (forall i :: 0 <= i < |answers| ==> !answers[i].Unwritten?) ==>
              TotalBudget(Tick(rows, ids, answers, now)) <= TotalBudget(rows) - |ids|
  {
    if ids != [] {
      RetryAllSpends(rows, ids, answers, now);
      MarkingCostsNothing(RetryAll(rows, ids, answers, now));
    }
    if forall i :: 0 <= i < |answers| ==> !answers[i].Unwritten? {
      AllWritten(answers);
    }
  }

  predicate Exhausted(r: Request) {
    r.status.PROCESSING? && r.retryCount >= MAX_REFUND_RETRIES
  }

  lemma {:induction false} MarkedAreNotExhausted(rows: map<int, Request>, id: int)
    requires id in rows
    ensures !Exhausted(MarkFailures(rows)[id])
    ensures Exhausted(rows[id]) ==> MarkFailures(rows)[id] == rows[id].(status := FAILED)
  {
  }

  /** No row is left exhausted and PROCESSING by a tick, except when the tick picks nothing: then the cron returns
      before it marks, and a row exhausted by manual retries stays PROCESSING. */
  lemma {:induction false} TickMarksExhaustedIff(rows: map<int, Request>, ids: seq<int>, answers: seq<Answer>, now: int)
    requires Picked(rows, now, ids) && |answers| == |ids|
    ensures (forall id :: id in Tick(rows, ids, answers, now) ==> !Exhausted(Tick(rows, ids, answers, now)[id]))
       <==> (ids != [] || forall id :: id in rows ==> !Exhausted(rows[id]))
  {
    if ids != [] {
      var mid := RetryAll(rows, ids, answers, now);
      forall id | id in mid
        ensures !Exhausted(Tick(rows, ids, answers, now)[id])
      {
        MarkedAreNotExhausted(mid, id);
      }
    }
  }

  /** A picked row whose fifth attempt is refused is FAILED by the end of that tick. */
  lemma {:induction false} LastRefusalFails(rows: map<int, Request>, ids: seq<int>, answers: seq<Answer>, now: int,
                                            i: nat)
    requires Picked(rows, now, ids) && |answers| == |ids| && i < |ids|
    requires ids[i] in rows && rows[ids[i]].retryCount == MAX_REFUND_RETRIES - 1 && answers[i].Refused?
    ensures ids[i] in Tick(rows, ids, answers, now)
    ensures Tick(rows, ids, answers, now)[ids[i]].status.FAILED?
    ensures Tick(rows, ids, answers, now)[ids[i]].retryCount == MAX_REFUND_RETRIES
  {
    assert ids[i] in ids;
    RetryAllAt(rows, ids, answers, now, i);
    MarkedAreNotExhausted(RetryAll(rows, ids, answers, now), ids[i]);
  }

  /** What a tick makes of a picked row: an accepted refund is COMPLETED, a row without a payment FAILED, a refusal uses
      up one of five attempts, and an attempt that is not written leaves no trace. */
  lemma {:induction false} TickSettlesRow(rows: map<int, Request>, ids: seq<int>, answers: seq<Answer>, now: int,
                                          i: nat)
    requires Picked(rows, now, ids) && |answers| == |ids| && i < |ids|
    ensures ids[i] in rows && ids[i] in Tick(rows, ids, answers, now)
    ensures var before, after := rows[ids[i]], Tick(rows, ids, answers, now)[ids[i]];
            && after.destination == before.destination && after.hasPayment == before.hasPayment
            && (if answers[i].Unwritten? then after == before
                else
                  && after.retryCount == before.retryCount + 1 && after.updatedAt == now
                  && (after.status.COMPLETED? <==> before.hasPayment && answers[i].Accepted?)
                  && (after.status.PROCESSING? <==> before.hasPayment && answers[i].Refused? && after.retryCount < 5)
                  && (after.status.FAILED?
                      <==> !before.hasPayment || (answers[i].Refused? && after.retryCount == 5)))
  {
    assert ids[i] in ids;
    RetryAllAt(rows, ids, answers, now, i);
    assert rows[ids[i]].retryCount < MAX_REFUND_RETRIES;
  }

  /** Every other row is as before, except that an exhausted one is FAILED. */
  lemma {:induction false} TickLeavesOthers(rows: map<int, Request>, ids: seq<int>, answers: seq<Answer>, now: int,
                                            id: int)
    requires Picked(rows, now, ids) && |answers| == |ids| && id in rows && id !in ids
    ensures id in Tick(rows, ids, answers, now)
    ensures Tick(rows, ids, answers, now)[id]
         == if ids != [] && Exhausted(rows[id]) then rows[id].(status := FAILED) else rows[id]
  {
    RetryAllFrame(rows, ids, answers, now);
  }

  /** A tick with room in its batch, all of whose attempts are written, uses up an attempt of a row exactly if the row
      is an unfinished gateway refund with attempts left that nobody touched for an hour. */
  lemma {:induction false} RetriedIff(rows: map<int, Request>, ids: seq<int>, answers: seq<Answer>, now: int, id: int)
    requires Picked(rows, now, ids) && |ids| < 50 && |answers| == |ids| && id in rows
    requires forall i :: 0 <= i < |answers| ==> !answers[i].Unwritten?
    ensures id in Tick(rows, ids, answers, now)
    ensures Tick(rows, ids, answers, now)[id].retryCount > rows[id].retryCount
       <==> rows[id].status.PROCESSING? && rows[id].destination.ORIGINAL_PAYMENT? && rows[id].retryCount < 5
            && now - rows[id].updatedAt >= 3600000
  {
    if id in ids {
      var i :| 0 <= i < |ids| && ids[i] == id;
      TickSettlesRow(rows, ids, answers, now, i);
    } else {
      TickLeavesOthers(rows, ids, answers, now, id);
    }
  }

  // ---------- The statements of a tick among others ----------

  /** A tick under way: the rows as they were picked, the next one to try, and whether it has been tried. */
  datatype Progress = Progress(picked: map<int, Request>, ids: seq<int>, next: nat, tried: bool)

  /** `calls` lists the gateway calls of the cron, `lost` those attempts that were never written; both are history. */
  datatype Sys = Sys(rows: map<int, Request>, calls: seq<int>, lost: seq<int>, tick: Option<Progress>)

  datatype Step =
    | Pick(ids: seq<int>, now: int)
    | Try
    | Write(answer: Answer, now: int)
    | Mark
    | Crash
    | Manual(id: int, outcome: Status, bumps: bool, now: int)
    | Create(id: int, destination: Destination, hasPayment: bool, now: int)

  ghost function Next(s: Sys, step: Step): Sys {
    match step
    case Pick(ids, now) =>
      if s.tick.Some? || !Picked(s.rows, now, ids) || ids == [] then s
      else s.(tick := Some(Progress(s.rows, ids, 0, false)))
    case Try =>
      if s.tick.None? || s.tick.value.next >= |s.tick.value.ids| || s.tick.value.tried then s
      else
        var t := s.tick.value;
        var id := t.ids[t.next];
        s.(calls := if id in t.picked && t.picked[id].hasPayment then s.calls + [id] else s.calls,
           tick := Some(t.(tried := true)))
    case Write(answer, now) =>
      if s.tick.None? || s.tick.value.next >= |s.tick.value.ids| || !s.tick.value.tried then s
      else
        var t := s.tick.value;
        var id := t.ids[t.next];
        s.(rows := if id in s.rows && id in t.picked then s.rows[id := Retried(s.rows[id], t.picked[id], answer, now)]
                   else s.rows,
           lost := if answer.Unwritten? then s.lost + [id] else s.lost,
           tick := Some(t.(next := t.next + 1, tried := false)))
    case Mark =>
      if s.tick.None? || s.tick.value.next < |s.tick.value.ids| then s
      else s.(rows := MarkFailures(s.rows), tick := None)
    case Crash =>
      if s.tick.None? then s
      else
        var t := s.tick.value;
        s.(lost := if t.tried && t.next < |t.ids| then s.lost + [t.ids[t.next]] else s.lost, tick := None)
    case Manual(id, outcome, bumps, now) =>
      if id !in s.rows then s
      else
        var r := s.rows[id];
        s.(rows := s.rows[id := r.(status := outcome, retryCount := r.retryCount + if bumps then 1 else 0,
                                   updatedAt := now)])
    case Create(id, destination, hasPayment, now) =>
      if id in s.rows then s
      else s.(rows := s.rows[id := Request(Status.PROCESSING, destination, hasPayment, 0, now)])
  }

  ghost function Run(s: Sys, steps: seq<Step>): Sys {
    if steps == [] then s else Next(Run(s, steps[..|steps| - 1]), steps[|steps| - 1])
  }

  ghost predicate Init(s: Sys) {
    s == Sys(map[], [], [], None)
  }

  function Count(log: seq<int>, id: int): nat {
    if log == [] then 0 else Count(log[..|log| - 1], id) + if log[|log| - 1] == id then 1 else 0
  }

  lemma {:induction false} CountOneMore(log: seq<int>, last: int, id: int)
    ensures Count(log + [last], id) == Count(log, id) + if last == id then 1 else 0
  {
    assert (log + [last])[..|log|] == log;
  }

  function Min(a: int, b: int): int {
    if a < b then a else b
  }

  /** The row that the running tick has tried and not yet written. */
  predicate InFlight(s: Sys, id: int) {
    s.tick.Some? && s.tick.value.tried && s.tick.value.next < |s.tick.value.ids|
    && s.tick.value.ids[s.tick.value.next] == id
  }

  /** What the running tick still holds of its picked rows: they had attempts left, and counts only grew since. */
  ghost predicate TickHolds(s: Sys) {
    s.tick.Some? ==>
      var t := s.tick.value;
      && t.next <= |t.ids| && Distinct(t.ids)
      && forall i :: t.next <= i < |t.ids| ==> RowHolds(s, t.picked, t.ids[i])
  }

  /** The calls of a row before this tick are paid for by its picked count. */
  ghost predicate RowHolds(s: Sys, picked: map<int, Request>, id: int) {
    && id in picked && id in s.rows
    && picked[id].retryCount < MAX_REFUND_RETRIES && picked[id].retryCount <= s.rows[id].retryCount
    && Count(s.calls, id) <= picked[id].retryCount + Count(s.lost, id) + if InFlight(s, id) then 1 else 0
  }

  /** Every cron call of a row is paid for by its retry count, at most five, or by an unwritten attempt. */
  ghost predicate CallsPaid(s: Sys, id: int) {
    Count(s.calls, id) <= (if id in s.rows then Min(s.rows[id].retryCount, MAX_REFUND_RETRIES) else 0)
                          + Count(s.lost, id) + if InFlight(s, id) then 1 else 0
  }

  ghost predicate Bounded(s: Sys) {
    TickHolds(s) && forall id :: CallsPaid(s, id)
  }

  lemma {:induction false} PickKeepsBounded(s: Sys, step: Step)
    requires Bounded(s) && step.Pick?
    ensures Bounded(Next(s, step))
  {
    var out := Next(s, step);
    if out != s {
      forall i | 0 <= i < |step.ids|
        ensures RowHolds(out, s.rows, step.ids[i])
      {
        assert step.ids[i] in step.ids;
        assert CallsPaid(s, step.ids[i]);
      }
      forall id ensures CallsPaid(out, id) {
        assert CallsPaid(s, id);
      }
    }
  }

  lemma {:induction false} TryKeepsBounded(s: Sys)
    requires Bounded(s)
    ensures Bounded(Next(s, Try))
  {
    var out := Next(s, Try);
    if out != s {
      var t := s.tick.value;
      var last := t.ids[t.next];
      assert RowHolds(s, t.picked, last);
      forall i | t.next <= i < |t.ids|
        ensures RowHolds(out, t.picked, t.ids[i])
      {
        CountOneMore(s.calls, last, t.ids[i]);
        assert RowHolds(s, t.picked, t.ids[i]);
      }
      forall id ensures CallsPaid(out, id) {
        CountOneMore(s.calls, last, id);
        assert CallsPaid(s, id);
      }
    }
  }

  lemma {:induction false} WriteKeepsBounded(s: Sys, step: Step)
    requires Bounded(s) && step.Write?
    ensures Bounded(Next(s, step))
  {
    var out := Next(s, step);
    if out != s {
      var t := s.tick.value;
      var last := t.ids[t.next];
      assert RowHolds(s, t.picked, last);
      forall i | t.next + 1 <= i < |t.ids|
        ensures RowHolds(out, t.picked, t.ids[i])
      {
        CountOneMore(s.lost, last, t.ids[i]);
        assert RowHolds(s, t.picked, t.ids[i]);
      }
      forall id ensures CallsPaid(out, id) {
        CountOneMore(s.lost, last, id);
        assert CallsPaid(s, id);
      }
    }
  }

  lemma {:induction false} EndKeepsBounded(s: Sys, step: Step)
    requires Bounded(s) && (step.Mark? || step.Crash?)
    ensures Bounded(Next(s, step))
  {
    var out := Next(s, step);
    if out != s {
      var t := s.tick.value;
      forall id ensures CallsPaid(out, id) {
        if t.next < |t.ids| {
          CountOneMore(s.lost, t.ids[t.next], id);
        }
        assert CallsPaid(s, id);
      }
    }
  }

  lemma {:induction false} ManualKeepsBounded(s: Sys, step: Step)
    requires Bounded(s) && (step.Manual? || step.Create?)
    ensures Bounded(Next(s, step))
  {
    var out := Next(s, step);
    if s.tick.Some? {
      var t := s.tick.value;
      forall i | t.next <= i < |t.ids|
        ensures RowHolds(out, t.picked, t.ids[i])
      {
        assert RowHolds(s, t.picked, t.ids[i]);
      }
    }
    forall id ensures CallsPaid(out, id) {
      assert CallsPaid(s, id);
    }
  }

  lemma {:induction false} RunKeepsBounded(s: Sys, steps: seq<Step>)
    requires Init(s)
    ensures Bounded(Run(s, steps))
    decreases |steps|
  {
    if steps != [] {
      var mid, last := Run(s, steps[..|steps| - 1]), steps[|steps| - 1];
      RunKeepsBounded(s, steps[..|steps| - 1]);
      match last
      case Pick(_, _) => PickKeepsBounded(mid, last);
      case Try => TryKeepsBounded(mid);
      case Write(_, _) => WriteKeepsBounded(mid, last);
      case Mark => EndKeepsBounded(mid, last);
      case Crash => EndKeepsBounded(mid, last);
      case _ => ManualKeepsBounded(mid, last);
    }
  }

  /** Over any run, manual retries inside ticks and crashes included, the cron calls the gateway for a row at most five
      times, and once more for each attempt that it never wrote. */
  lemma {:induction false} CronCallsBounded(s: Sys, steps: seq<Step>, id: int)
    requires Init(s)
    ensures Count(Run(s, steps).calls, id) <= MAX_REFUND_RETRIES + Count(Run(s, steps).lost, id)
  {
    RunKeepsBounded(s, steps);
    var r := Run(s, steps);
    assert CallsPaid(r, id);
    if InFlight(r, id) {
      assert RowHolds(r, r.tick.value.picked, r.tick.value.ids[r.tick.value.next]);
    }
  }

  // ---------- What the cron sends to the gateway ----------

  /** A row that the gateway can be asked about: its order has a payment, and the refund goes back to it. */
  predicate Payable(r: Request) {
    r.hasPayment && r.destination.ORIGINAL_PAYMENT?
  }

  /** Called rows are payable, and the running tick knows which of its rows have a payment. */
  ghost predicate CallsPayable(s: Sys) {
    && (forall id :: id in s.calls ==> id in s.rows && Payable(s.rows[id]))
    && (s.tick.Some? ==>
          forall id :: id in s.tick.value.ids ==>
            && id in s.tick.value.picked && id in s.rows && s.rows[id].destination.ORIGINAL_PAYMENT?
            && s.rows[id].hasPayment == s.tick.value.picked[id].hasPayment)
  }

  lemma {:induction false} StepKeepsPayable(s: Sys, step: Step)
    requires CallsPayable(s)
    ensures CallsPayable(Next(s, step))
  {
    if step.Try? && s.tick.Some? && s.tick.value.next < |s.tick.value.ids| {
      assert s.tick.value.ids[s.tick.value.next] in s.tick.value.ids;
    }
  }

  /** Over any run the cron calls the gateway only for refunds to the original payment of orders that have one. */
  lemma {:induction false} OnlyPayableAreCalled(s: Sys, steps: seq<Step>)
    requires Init(s)
    ensures CallsPayable(Run(s, steps))
    decreases |steps|
  {
    if steps != [] {
      OnlyPayableAreCalled(s, steps[..|steps| - 1]);
      StepKeepsPayable(Run(s, steps[..|steps| - 1]), steps[|steps| - 1]);
    }
  }

  // ---------- A row that is settled ----------

  /** The running tick still has this row before it. */
  ghost predicate Waiting(s: Sys, id: int) {
    s.tick.Some? && WaitsIn(s.tick.value, id)
  }

  ghost predicate WaitsIn(t: Progress, id: int) {
    exists i :: t.next <= i < |t.ids| && t.ids[i] == id && !(t.tried && i == t.next)
  }

  ghost predicate EachOnce(s: Sys) {
    s.tick.Some? ==> Distinct(s.tick.value.ids)
  }

  function OneIf(b: bool): nat {
    if b then 1 else 0
  }

  lemma {:induction false} TrySpendsTheWait(t: Progress, id: int)
    requires Distinct(t.ids) && t.next < |t.ids| && !t.tried
    ensures WaitsIn(t.(tried := true), id) <==> WaitsIn(t, id) && t.ids[t.next] != id
    ensures t.ids[t.next] == id ==> WaitsIn(t, id)
  {
    if WaitsIn(t, id) && t.ids[t.next] != id {
      var i :| t.next <= i < |t.ids| && t.ids[i] == id;
      assert t.next < i;
    }
  }

  lemma {:induction false} WriteKeepsTheWait(t: Progress, id: int)
    requires Distinct(t.ids) && t.next < |t.ids| && t.tried
    ensures WaitsIn(t.(next := t.next + 1, tried := false), id) <==> WaitsIn(t, id)
  {
  }

  /** A step other than a manual one of this row, once the row is no longer PROCESSING. */
  lemma {:induction false} SettledStep(s: Sys, step: Step, id: int)
    requires EachOnce(s) && id in s.rows && !s.rows[id].status.PROCESSING? && !(step.Manual? && step.id == id)
    ensures var r := Next(s, step);
            && EachOnce(r) && id in r.rows && !r.rows[id].status.PROCESSING?
            && Count(r.calls, id) + OneIf(Waiting(r, id)) <= Count(s.calls, id) + OneIf(Waiting(s, id))
            && (s.rows[id].status.COMPLETED? && !Waiting(s, id) && !InFlight(s, id) ==>
                  r.rows[id] == s.rows[id] && !Waiting(r, id) && !InFlight(r, id))
  {
    var r := Next(s, step);
    if r != s {
      match step
      case Pick(ids, _) =>
        assert id !in ids;
      case Try =>
        TrySpendsTheWait(s.tick.value, id);
        CountOneMore(s.calls, s.tick.value.ids[s.tick.value.next], id);
      case Write(_, _) =>
        WriteKeepsTheWait(s.tick.value, id);
      case _ =>
    }
  }

  /** Once a row is not PROCESSING the cron never calls the gateway for it again, unless a manual step reopens it, or
      the running tick picked it before: then it may call once more. */
  lemma {:induction false} SettledRowIsLeftAlone(s: Sys, steps: seq<Step>, id: int)
    requires EachOnce(s) && id in s.rows && !s.rows[id].status.PROCESSING?
    requires forall i :: 0 <= i < |steps| ==> !(steps[i].Manual? && steps[i].id == id)
    ensures var r := Run(s, steps);
            && EachOnce(r) && id in r.rows && !r.rows[id].status.PROCESSING?
            && Count(r.calls, id) + OneIf(Waiting(r, id)) <= Count(s.calls, id) + OneIf(Waiting(s, id))
            && (s.rows[id].status.COMPLETED? && !Waiting(s, id) && !InFlight(s, id) ==>
                  r.rows[id] == s.rows[id] && !Waiting(r, id) && !InFlight(r, id))
    decreases |steps|
  {
    if steps != [] {
      SettledRowIsLeftAlone(s, steps[..|steps| - 1], id);
      SettledStep(Run(s, steps[..|steps| - 1]), steps[|steps| - 1], id);
    }
  }

  lemma {:induction false} CallsNeverShrink(s: Sys, steps: seq<Step>, id: int)
    ensures Count(Run(s, steps).calls, id) >= Count(s.calls, id)
    decreases |steps|
  {
    if steps != [] {
      var mid := Run(s, steps[..|steps| - 1]);
      CallsNeverShrink(s, steps[..|steps| - 1], id);
      if steps[|steps| - 1].Try? && mid.tick.Some? && mid.tick.value.next < |mid.tick.value.ids| {
        CountOneMore(mid.calls, mid.tick.value.ids[mid.tick.value.next], id);
      }
    }
  }

  /** Over any run: a refund that the gateway accepted for the cron, once that is written, is COMPLETED and stays so,
      and the cron never calls the gateway for it again, unless a manual step reopens the row. */
  lemma {:induction false} AcceptedIsFinal(s: Sys, steps: seq<Step>, id: int, now: int, more: seq<Step>)
    requires Init(s) && InFlight(Run(s, steps), id)
    requires var t := Run(s, steps).tick.value; id in t.picked && t.picked[id].hasPayment
    requires forall i :: 0 <= i < |more| ==> !(more[i].Manual? && more[i].id == id)
    ensures var written := Next(Run(s, steps), Write(Accepted, now));
            var end := Run(written, more);
            && id in end.rows && end.rows[id].status.COMPLETED?
            && Count(end.calls, id) == Count(Run(s, steps).calls, id)
  {
    RunKeepsBounded(s, steps);
    var r := Run(s, steps);
    var t := r.tick.value;
    assert RowHolds(r, t.picked, t.ids[t.next]);
    var written := Next(r, Write(Accepted, now));
    assert !WaitsIn(t, id);
    WriteKeepsTheWait(t, id);
    SettledRowIsLeftAlone(written, more, id);
    CallsNeverShrink(written, more, id);
  }

  /** The input for the exception: a row that the manual path completes after the tick has picked it is sent to the
      gateway once more. */
  lemma {:induction false} StalePickCallsAgain(s: Sys, id: int, now: int)
    requires s.tick.None? && Picked(s.rows, now, [id]) && id in s.rows && s.rows[id].hasPayment
    ensures var completed := Next(Next(s, Pick([id], now)), Manual(id, COMPLETED, false, now));
            && completed.rows[id].status.COMPLETED?
            && Count(Next(completed, Try).calls, id) == Count(completed.calls, id) + 1
  {
    CountOneMore(s.calls, id, id);
  }

  // ---------- The service ----------

  predicate ByOthers(steps: seq<Step>) {
    forall i :: 0 <= i < |steps| ==> steps[i].Manual? || steps[i].Create?
  }

  /** The statements of a tick for its first n rows, with those of others before each. */
  function RowsTrace(answers: seq<Answer>, clock: seq<int>, between: seq<seq<Step>>, n: nat): seq<Step>
    requires n <= |answers| == |clock| && |between| >= 2 * n
  {
    if n == 0 then []
    else
      RowsTrace(answers, clock, between, n - 1)
      + (between[2 * n - 2] + ([Try] + between[2 * n - 1] + [Write(answers[n - 1], clock[n - 1])]))
  }

  function TickTrace(ids: seq<int>, now: int, answers: seq<Answer>, clock: seq<int>, between: seq<seq<Step>>): seq<Step>
    requires |ids| == |answers| == |clock| && |between| == 2 * |ids| + 1
  {
    if ids == [] then [Pick(ids, now)]
    else [Pick(ids, now)] + RowsTrace(answers, clock, between, |ids|) + (between[2 * |ids|] + [Mark])
  }

  lemma {:induction false} RunOneMore(s: Sys, steps: seq<Step>, step: Step)
    ensures Run(s, steps + [step]) == Next(Run(s, steps), step)
  {
    assert (steps + [step])[..|steps|] == steps;
  }

  lemma {:induction false} RunConcat(s: Sys, first: seq<Step>, second: seq<Step>)
    ensures Run(s, first + second) == Run(Run(s, first), second)
    decreases |second|
  {
    if second == [] {
      assert first + second == first;
    } else {
      var n := |second| - 1;
      RunConcat(s, first, second[..n]);
      assert first + second == (first + second[..n]) + [second[n]];
      RunOneMore(s, first + second[..n], second[n]);
    }
  }

  lemma {:induction false} RunOne(s: Sys, step: Step)
    ensures Run(s, [step]) == Next(s, step)
  {
    assert [step][..0] == [];
  }

  class RefundTable {
    var rows: map<int, Request>
    ghost var calls: seq<int>
    ghost var lost: seq<int>
    ghost var tick: Option<Progress>

    constructor (rows: map<int, Request>)
      ensures Contents() == Sys(rows, [], [], None)
    {
      this.rows, calls, lost, tick := rows, [], [], None;
    }

    ghost function Contents(): Sys
      reads this
    {
      Sys(rows, calls, lost, tick)
    }

    /** What the manual path does between two statements of a tick. */
    method Others(steps: seq<Step>)
      requires ByOthers(steps)
      modifies this`rows
      ensures Contents() == Run(old(Contents()), steps) && old(rows).Keys <= rows.Keys
    {
      var i := 0;
      while i < |steps|
        invariant i <= |steps| && Contents() == Run(old(Contents()), steps[..i]) && old(rows).Keys <= rows.Keys
      {
        assert steps[..i + 1][..i] == steps[..i];
        match steps[i] {
          case Manual(id, outcome, bumps, now) =>
            if id in rows {
              var r := rows[id];
              rows := rows[id := r.(status := outcome, retryCount := r.retryCount + if bumps then 1 else 0,
                                    updatedAt := now)];
            }
          case Create(id, destination, hasPayment, now) =>
            if id !in rows {
              rows := rows[id := Request(Status.PROCESSING, destination, hasPayment, 0, now)];
            }
          case _ =>
        }
        i := i + 1;
      }
      assert steps[..i] == steps;
    }

    /** retryOne: the gateway is called only when the order has a payment; the writes touch their columns only. */
    method RetryOne(id: int, picked: Request, answer: Answer, now: int, others: seq<Step>)
      requires ByOthers(others) && id in rows
      requires tick.Some? && tick.value.next < |tick.value.ids| && !tick.value.tried
      requires tick.value.ids[tick.value.next] == id && id in tick.value.picked && tick.value.picked[id] == picked
      modifies this
      ensures Contents() == Run(old(Contents()), [Try] + others + [Write(answer, now)])
      ensures tick == Some(old(tick).value.(next := old(tick).value.next + 1)) && old(rows).Keys <= rows.Keys
    {
      ghost var s0 := Contents();
      if picked.hasPayment {
        calls := calls + [id];
      }
      tick := Some(tick.value.(tried := true));
      ghost var s1 := Contents();
      Others(others);
      ghost var s2 := Contents();
      WriteAttempt(id, picked, answer, now);
      AttemptRuns(s0, s1, s2, answer, now, others);
    }

    /** The writes of retryOne after the gateway answered. */
    method WriteAttempt(id: int, picked: Request, answer: Answer, now: int)
      requires id in rows
      requires tick.Some? && tick.value.next < |tick.value.ids| && tick.value.tried
      requires tick.value.ids[tick.value.next] == id && id in tick.value.picked && tick.value.picked[id] == picked
      modifies this
      ensures Contents() == Next(old(Contents()), Write(answer, now)) && rows.Keys == old(rows).Keys
      ensures tick == Some(old(tick).value.(next := old(tick).value.next + 1, tried := false))
    {
      if answer.Unwritten? {
        lost := lost + [id];
      } else {
        var nextAttempt := picked.retryCount + 1;
        rows := rows[id := rows[id].(retryCount := nextAttempt, updatedAt := now)];
        if !picked.hasPayment {
          rows := rows[id := rows[id].(status := FAILED)];
        } else if answer.Accepted? {
          rows := rows[id := rows[id].(status := COMPLETED)];
        }
      }
      tick := Some(tick.value.(next := tick.value.next + 1, tried := false));
    }

    /** runOnce: `between` is what the manual path does between the statements of the tick. */
    method RunOnce(ids: seq<int>, now: int, answers: seq<Answer>, clock: seq<int>, between: seq<seq<Step>>)
      requires Picked(rows, now, ids) && tick.None?
      requires |answers| == |clock| == |ids| && |between| == 2 * |ids| + 1
      requires forall i :: 0 <= i < |between| ==> ByOthers(between[i])
      modifies this
      ensures Contents() == Run(old(Contents()), TickTrace(ids, now, answers, clock, between)) && tick.None?
    {
      ghost var start := Contents();
      PickRows(ids, now);
      if ids == [] {
        RunOne(start, Pick(ids, now));
        return;
      }
      forall i | 0 <= i < |ids| ensures ids[i] in rows {
        assert ids[i] in ids;
      }
      RetryPicked(rows, ids, answers, clock, between);
      Others(between[2 * |ids|]);
      MarkRows();
      WholeTick(start, Pick(ids, now), RowsTrace(answers, clock, between, |ids|), between[2 * |ids|]);
    }

    method PickRows(ids: seq<int>, now: int)
      requires Picked(rows, now, ids) && tick.None?
      modifies this
      ensures Contents() == Next(old(Contents()), Pick(ids, now)) && rows == old(rows)
      ensures tick == if ids == [] then None else Some(Progress(rows, ids, 0, false))
    {
      if ids != [] {
        tick := Some(Progress(rows, ids, 0, false));
      }
    }

    /** markFailures, after the last row. */
    method MarkRows()
      requires tick.Some? && tick.value.next == |tick.value.ids|
      modifies this
      ensures Contents() == Next(old(Contents()), Mark) && tick.None?
    {
      rows := MarkFailures(rows);
      tick := None;
    }

    /** The loop over the picked rows. */
    method RetryPicked(stuck: map<int, Request>, ids: seq<int>, answers: seq<Answer>, clock: seq<int>,
                       between: seq<seq<Step>>)
      requires tick == Some(Progress(stuck, ids, 0, false))
      requires forall i :: 0 <= i < |ids| ==> ids[i] in stuck && ids[i] in rows
      requires |answers| == |clock| == |ids| && |between| == 2 * |ids| + 1
      requires forall i :: 0 <= i < |between| ==> ByOthers(between[i])
      modifies this
      ensures Contents() == Run(old(Contents()), RowsTrace(answers, clock, between, |ids|))
      ensures tick == Some(Progress(stuck, ids, |ids|, false))
    {
      ghost var start := Contents();
      var i := 0;
      while i < |ids|
        invariant i <= |ids| && tick == Some(Progress(stuck, ids, i, false))
        invariant Contents() == Run(start, RowsTrace(answers, clock, between, i))
        invariant forall k :: 0 <= k < |ids| ==> ids[k] in rows
      {
        RetryNext(start, ids[i], stuck[ids[i]], answers, clock, between, i);
        i := i + 1;
      }
    }

    /** One round of the loop, after n others. */
    method RetryNext(ghost start: Sys, id: int, picked: Request, answers: seq<Answer>, clock: seq<int>,
                     between: seq<seq<Step>>, n: nat)
      requires n < |answers| == |clock| && |between| >= 2 * n + 2 && ByOthers(between[2 * n])
      requires ByOthers(between[2 * n + 1]) && id in rows
      requires tick.Some? && tick.value.next < |tick.value.ids| && !tick.value.tried
      requires tick.value.ids[tick.value.next] == id && id in tick.value.picked && tick.value.picked[id] == picked
      requires Contents() == Run(start, RowsTrace(answers, clock, between, n))
      modifies this
      ensures Contents() == Run(start, RowsTrace(answers, clock, between, n + 1))
      ensures tick == Some(old(tick).value.(next := old(tick).value.next + 1)) && old(rows).Keys <= rows.Keys
    {
      ghost var mid := Contents();
      RetryAfter(between[2 * n], id, picked, answers[n], clock[n], between[2 * n + 1]);
      OneMoreRow(start, mid, Contents(), answers, clock, between, n);
    }

    /** The steps of others, then one retry. */
    method RetryAfter(before: seq<Step>, id: int, picked: Request, answer: Answer, now: int, others: seq<Step>)
      requires ByOthers(before) && ByOthers(others) && id in rows
      requires tick.Some? && tick.value.next < |tick.value.ids| && !tick.value.tried
      requires tick.value.ids[tick.value.next] == id && id in tick.value.picked && tick.value.picked[id] == picked
      modifies this
      ensures Contents() == Run(old(Contents()), before + ([Try] + others + [Write(answer, now)]))
      ensures tick == Some(old(tick).value.(next := old(tick).value.next + 1)) && old(rows).Keys <= rows.Keys
    {
      ghost var s0 := Contents();
      Others(before);
      RetryOne(id, picked, answer, now, others);
      RunConcat(s0, before, [Try] + others + [Write(answer, now)]);
    }
  }

  lemma {:induction false} OneMoreRow(s: Sys, mid: Sys, after: Sys, answers: seq<Answer>, clock: seq<int>,
                                      between: seq<seq<Step>>, n: nat)
    requires n < |answers| == |clock| && |between| >= 2 * n + 2
    requires mid == Run(s, RowsTrace(answers, clock, between, n))
    requires after == Run(mid, between[2 * n] + ([Try] + between[2 * n + 1] + [Write(answers[n], clock[n])]))
    ensures after == Run(s, RowsTrace(answers, clock, between, n + 1))
  {
    RunConcat(s, RowsTrace(answers, clock, between, n),
              between[2 * n] + ([Try] + between[2 * n + 1] + [Write(answers[n], clock[n])]));
  }

  /** The statements of a whole tick, in their order. */
  lemma {:induction false} WholeTick(s: Sys, pick: Step, loop: seq<Step>, last: seq<Step>)
    ensures Run(s, [pick] + loop + (last + [Mark])) == Next(Run(Run(Next(s, pick), loop), last), Mark)
  {
    RunOne(s, pick);
    RunConcat(s, [pick], loop);
    RunConcat(s, [pick] + loop, last + [Mark]);
    RunConcat(Run(s, [pick] + loop), last, [Mark]);
    RunOne(Run(Run(s, [pick] + loop), last), Mark);
  }

  lemma {:induction false} AttemptRuns(s0: Sys, s1: Sys, s2: Sys, answer: Answer, now: int, others: seq<Step>)
    requires s1 == Next(s0, Try) && s2 == Run(s1, others)
    ensures Run(s0, [Try] + others + [Write(answer, now)]) == Next(s2, Write(answer, now))
  {
    RunOne(s0, Try);
    RunConcat(s0, [Try], others);
    RunOne(s2, Write(answer, now));
    RunConcat(s0, [Try] + others, [Write(answer, now)]);
  }

  // ---------- A tick that nobody interrupts ----------

  function Quiet(n: nat): (r: seq<seq<Step>>)
    ensures |r| == n && ByOthers([])
  {
    seq(n, _ => [])
  }

  function At(now: int, n: nat): (r: seq<int>)
    ensures |r| == n
  {
    seq(n, _ => now)
  }

  lemma {:induction false} QuietAttempt(s: Sys, answer: Answer, now: int)
    ensures Run(s, [] + ([Try] + [] + [Write(answer, now)])) == Next(Next(s, Try), Write(answer, now))
  {
    assert [] + ([Try] + [] + [Write(answer, now)]) == [Try] + [] + [Write(answer, now)];
    AttemptRuns(s, Next(s, Try), Next(s, Try), answer, now, []);
  }

  /** Trying and writing row n - 1 is one more round of the loop. */
  lemma {:induction false} QuietRound(rows: map<int, Request>, mid: Sys, ids: seq<int>, now: int, answers: seq<Answer>,
                                      n: nat)
    requires Distinct(ids) && |answers| == |ids| && 0 < n <= |ids| && forall id :: id in ids ==> id in rows
    requires mid.rows == RetryAll(rows, ids[..n - 1], answers[..n - 1], now)
    requires mid.tick == Some(Progress(rows, ids, n - 1, false))
    ensures var r := Next(Next(mid, Try), Write(answers[n - 1], now));
            r.rows == RetryAll(rows, ids[..n], answers[..n], now) && r.tick == Some(Progress(rows, ids, n, false))
  {
    assert ids[..n][..n - 1] == ids[..n - 1] && answers[..n][..n - 1] == answers[..n - 1];
    assert ids[n - 1] in ids && ids[n - 1] !in ids[..n - 1];
    RetryAllFrame(rows, ids[..n - 1], answers[..n - 1], now);
  }

  lemma {:induction false} QuietRows(s: Sys, ids: seq<int>, now: int, answers: seq<Answer>, n: nat)
    requires Picked(s.rows, now, ids) && |answers| == |ids| && n <= |ids|
    requires s.tick == Some(Progress(s.rows, ids, 0, false))
    ensures var r := Run(s, RowsTrace(answers, At(now, |ids|), Quiet(2 * |ids| + 1), n));
            && r.rows == RetryAll(s.rows, ids[..n], answers[..n], now)
            && r.tick == Some(Progress(s.rows, ids, n, false))
  {
    if n > 0 {
      var front := RowsTrace(answers, At(now, |ids|), Quiet(2 * |ids| + 1), n - 1);
      QuietRows(s, ids, now, answers, n - 1);
      QuietRound(s.rows, Run(s, front), ids, now, answers, n);
      QuietAttempt(Run(s, front), answers[n - 1], now);
      RunConcat(s, front, [] + ([Try] + [] + [Write(answers[n - 1], now)]));
    }
  }

  /** The statements of a tick that nobody interrupts amount to `Tick`. */
  lemma {:induction false} QuietTickIsTick(s: Sys, ids: seq<int>, now: int, answers: seq<Answer>)
    requires s.tick.None? && Picked(s.rows, now, ids) && |answers| == |ids|
    ensures Run(s, TickTrace(ids, now, answers, At(now, |ids|), Quiet(2 * |ids| + 1))).rows
         == Tick(s.rows, ids, answers, now)
  {
    RunOne(s, Pick(ids, now));
    if ids != [] {
      QuietPicked(s, ids, now, answers);
    }
  }

  lemma {:induction false} QuietPicked(s: Sys, ids: seq<int>, now: int, answers: seq<Answer>)
    requires s.tick.None? && Picked(s.rows, now, ids) && |answers| == |ids| && ids != []
    ensures Run(s, [Pick(ids, now)] + RowsTrace(answers, At(now, |ids|), Quiet(2 * |ids| + 1), |ids|)
                   + ([] + [Mark])).rows
         == MarkFailures(RetryAll(s.rows, ids, answers, now))
  {
    var picked := Next(s, Pick(ids, now));
    var rowsTrace := RowsTrace(answers, At(now, |ids|), Quiet(2 * |ids| + 1), |ids|);
    assert picked == s.(tick := Some(Progress(s.rows, ids, 0, false)));
    QuietRows(picked, ids, now, answers, |ids|);
    assert ids[..|ids|] == ids && answers[..|ids|] == answers;
    WholeTick(s, Pick(ids, now), rowsTrace, []);
    assert Run(Run(picked, rowsTrace), []) == Run(picked, rowsTrace);
  }
}
