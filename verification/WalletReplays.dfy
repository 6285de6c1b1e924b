/** Replayed movements, the cap, and payouts from stale reads. */
module WalletReplays {
  import opened Schema
  import opened Wallet

  // ---------- Replays ----------

  ghost predicate Recorded(s: Shop, key: TxKey) {
    FindTx(s.books.txs, key).Some?
  }

  function KeyOf(step: Step): Option<TxKey> {
    match step
    case Crediting(userId, _, reference) => Some(TxKey(userId, reference, CREDIT))
    case Debiting(userId, _, reference) => Some(TxKey(userId, reference, DEBIT))
    case _ => None
  }

  /** A recorded movement is never applied again. The caller gets the recorded row exactly if no guard fires first. */
  lemma {:induction false} ReplayReturnsRecordIff(b: Books, userId: int, amount: int, reference: Reference)
    ensures var key := TxKey(userId, reference, CREDIT);
            FindTx(b.txs, key).Some? ==>
              && Credit(b, userId, amount, reference).0 == b
              && (Credit(b, userId, amount, reference).1 == Done(FindTx(b.txs, key).value)
                  <==> 0 <= Balance(b, userId) + amount <= MAX_WALLET_BALANCE)
    ensures var key := TxKey(userId, reference, DEBIT);
            FindTx(b.txs, key).Some? && userId in b.balances ==>
              && Debit(b, userId, amount, reference).0 == b
              && (Debit(b, userId, amount, reference).1 == Done(FindTx(b.txs, key).value)
                  <==> amount <= b.balances[userId])
  {
  }

  /** Rows of WalletTransaction are never deleted. */
  lemma {:induction false} RecordedStays(s: Shop, step: Step, key: TxKey)
    requires Recorded(s, key)
    ensures FindTx(Next(s, step).books.txs, key) == FindTx(s.books.txs, key)
  {
    var before, after := s.books.txs, Next(s, step).books.txs;
    if after != before {
      assert after == before + [after[|before|]];
      FoundStaysFound(before, after[|before|], key);
    }
  }

  lemma {:induction false} RunOneMore(s: Shop, steps: seq<Step>, step: Step)
    ensures Run(s, steps + [step]) == Next(Run(s, steps), step)
  {
    assert (steps + [step])[..|steps|] == steps;
  }

  lemma {:induction false} RunConcat(s: Shop, first: seq<Step>, second: seq<Step>)
    ensures Run(s, first + second) == Run(Run(s, first), second)
    decreases |second|
  {
    if second == [] {
      assert first + second == first;
    } else {
      var n := |second| - 1;
      RunConcat(s, first, second[..n]);
      assert first + second == (first + second[..n]) + [second[n]];
      RunOneMore(s, first + second[..n], second[n]);
    }
  }

  lemma {:induction false} RecordedForever(s: Shop, steps: seq<Step>, key: TxKey)
    requires Recorded(s, key)
    ensures FindTx(Run(s, steps).books.txs, key) == FindTx(s.books.txs, key)
    decreases |steps|
  {
    if steps != [] {
      RecordedForever(s, steps[..|steps| - 1], key);
      RecordedStays(Run(s, steps[..|steps| - 1]), steps[|steps| - 1], key);
    }
  }

  function Without(steps: seq<Step>, key: TxKey): seq<Step> {
    if steps == [] then []
    else
      var last := steps[|steps| - 1];
      Without(steps[..|steps| - 1], key) + if KeyOf(last) == Some(key) then [] else [last]
  }

  lemma {:induction false} ReplayIsNoOp(s: Shop, step: Step, key: TxKey)
    requires Recorded(s, key) && KeyOf(step) == Some(key)
    ensures Next(s, step) == s
  {
    assert s.(books := s.books) == s;
  }

  /** Once a movement is recorded, its replays can be struck from any later run. */
  lemma {:induction false} ReplaysAreNoise(s: Shop, steps: seq<Step>, key: TxKey)
    requires Recorded(s, key)
    ensures Run(s, Without(steps, key)) == Run(s, steps)
    decreases |steps|
  {
    if steps != [] {
      var before, last := steps[..|steps| - 1], steps[|steps| - 1];
      ReplaysAreNoise(s, before, key);
      if KeyOf(last) == Some(key) {
        RecordedForever(s, before, key);
        ReplayIsNoOp(Run(s, before), last, key);
        assert Without(steps, key) == Without(before, key);
      } else {
        RunOneMore(s, Without(before, key), last);
      }
    }
  }

  /** An accepted movement makes its later duplicates superfluous, whatever runs before and in between. */
  lemma {:induction false} AcceptedOnceIsEnough(s: Shop, before: seq<Step>, step: Step, after: seq<Step>)
    requires KeyOf(step).Some? && Recorded(Run(s, before + [step]), KeyOf(step).value)
    ensures Run(s, before + [step] + after) == Run(s, before + [step] + Without(after, KeyOf(step).value))
  {
    var mid := Run(s, before + [step]);
    RunConcat(s, before + [step], after);
    RunConcat(s, before + [step], Without(after, KeyOf(step).value));
    ReplaysAreNoise(mid, after, KeyOf(step).value);
  }

  /** The trace without every movement that was already recorded when it came. */
  ghost function WithoutReplays(s: Shop, steps: seq<Step>): seq<Step> {
    if steps == [] then []
    else
      var before, last := steps[..|steps| - 1], steps[|steps| - 1];
      WithoutReplays(s, before)
      + if KeyOf(last).Some? && Recorded(Run(s, before), KeyOf(last).value) then [] else [last]
  }

  lemma {:induction false} TraceWithoutReplays(s: Shop, steps: seq<Step>)
    ensures Run(s, WithoutReplays(s, steps)) == Run(s, steps)
    decreases |steps|
  {
    if steps != [] {
      var before, last := steps[..|steps| - 1], steps[|steps| - 1];
      TraceWithoutReplays(s, before);
      if KeyOf(last).Some? && Recorded(Run(s, before), KeyOf(last).value) {
        ReplayIsNoOp(Run(s, before), last, KeyOf(last).value);
        assert WithoutReplays(s, steps) == WithoutReplays(s, before);
      } else {
        RunOneMore(s, WithoutReplays(s, before), last);
      }
    }
  }

  /** A refused movement is not a duplicate of its retry: a credit that the cap refused goes through after a debit, so
      only recorded movements may be struck. */
  lemma {:induction false} RetryOfRefusedCounts(s: Shop, u: int, amount: int, credit: Reference, debit: Reference)
    requires u in s.books.balances && s.books.balances[u] == MAX_WALLET_BALANCE && 0 < amount <= MAX_WALLET_BALANCE
    requires !Recorded(s, TxKey(u, credit, CREDIT)) && !Recorded(s, TxKey(u, debit, DEBIT))
    ensures var refused := Next(s, Crediting(u, amount, credit));
            var spent := Next(refused, Debiting(u, amount, debit));
            var retried := Next(spent, Crediting(u, amount, credit));
            && refused == s && Balance(spent.books, u) == MAX_WALLET_BALANCE - amount
            && Balance(retried.books, u) == MAX_WALLET_BALANCE
  {
    assert s.(books := s.books) == s;
    var spent := Debit(s.books, u, amount, debit);
    FoundStaysFound(s.books.txs, spent.1.tx, TxKey(u, credit, CREDIT));
  }

  // ---------- The cap ----------

  ghost predicate WithinCap(b: Books) {
    forall u :: u in b.balances ==> b.balances[u] <= MAX_WALLET_BALANCE
  }

  predicate ByWalletService(step: Step) {
    step.Opening? || step.Crediting? || (step.Debiting? && step.amount >= 0)
  }

  lemma {:induction false} WalletServiceKeepsCap(s: Shop, steps: seq<Step>)
    requires WithinCap(s.books) && forall i :: 0 <= i < |steps| ==> ByWalletService(steps[i])
    ensures WithinCap(Run(s, steps).books)
    decreases |steps|
  {
    if steps != [] {
      WalletServiceKeepsCap(s, steps[..|steps| - 1]);
    }
  }

  /** The other two writers do not look at the cap: it survives their movement exactly if there was room. */
  lemma {:induction false} OtherWritersIgnoreCap(s: Shop, step: Step, t: Tx)
    requires WithinCap(s.books)
    requires || (step.Refunding? && RefundItem(s, step.orderId, step.itemId).1 == Done(t))
             || (step.Paying? && step.affiliateId in s.affiliates && step.account.totalEarned > step.account.totalPaid
                 && PayAffiliate(s, step.affiliateId, step.account, step.at).1 == Done(t))
    ensures WithinCap(Next(s, step).books) <==> Balance(s.books, t.key.userId) + t.amount <= MAX_WALLET_BALANCE
  {
    assert Next(s, step).books.balances == s.books.balances[t.key.userId := t.balanceAfter];
    assert t.key.userId in Next(s, step).books.balances;
  }

  // ---------- Payouts ----------

  ghost predicate NoneOverpaid(s: Shop) {
    forall id :: id in s.affiliates ==> s.affiliates[id].totalPaid <= s.affiliates[id].totalEarned
  }

  /** Each payout sees the account as it is when it pays. */
  ghost predicate ReadsAreCurrent(s: Shop, steps: seq<Step>) {
    forall i :: 0 <= i < |steps| && steps[i].Paying? && steps[i].affiliateId in Run(s, steps[..i]).affiliates ==>
      steps[i].account == Run(s, steps[..i]).affiliates[steps[i].affiliateId]
  }

  lemma {:induction false} StepNeverOverpays(s: Shop, step: Step)
    requires NoneOverpaid(s) && (step.Earning? ==> step.commission >= 0)
    requires step.Paying? && step.affiliateId in s.affiliates ==> step.account == s.affiliates[step.affiliateId]
    ensures NoneOverpaid(Next(s, step))
  {
  }

  lemma {:induction false} CurrentPayoutsNeverOverpay(s: Shop, steps: seq<Step>)
    requires NoneOverpaid(s) && ReadsAreCurrent(s, steps)
    requires forall i :: 0 <= i < |steps| && steps[i].Earning? ==> steps[i].commission >= 0
    ensures NoneOverpaid(Run(s, steps))
    decreases |steps|
  {
    if steps != [] {
      var n := |steps| - 1;
      forall i | 0 <= i < n
        ensures steps[..n][..i] == steps[..i]
      {
      }
      CurrentPayoutsNeverOverpay(s, steps[..n]);
      StepNeverOverpays(Run(s, steps[..n]), steps[n]);
    }
  }

  /** An accepted payout pays too much exactly if more was pending when it was read than when it is paid. */
  lemma {:induction false} StaleReadOverpaysIff(s: Shop, id: int, account: Affiliate, at: int)
    requires id in s.affiliates && PayAffiliate(s, id, account, at).1.Done?
    ensures var now, after := s.affiliates[id], PayAffiliate(s, id, account, at).0.affiliates[id];
            after.totalPaid > after.totalEarned
            <==> account.totalEarned - account.totalPaid > now.totalEarned - now.totalPaid
  {
    assert PayAffiliate(s, id, account, at).0.affiliates[id].totalEarned == s.affiliates[id].totalEarned;
  }

  /** Two payout runs that overlap pay a pending commission twice. */
  lemma {:induction false} OverlappingRunsPayTwice(s: Shop, id: int, at: int, later: int)
    requires Sound(s) && id in s.affiliates && at != later
    requires var a := s.affiliates[id];
             && a.totalEarned > a.totalPaid
             && !Recorded(s, TxKey(a.userId, PayoutRef(id, at), CREDIT))
             && !Recorded(s, TxKey(a.userId, PayoutRef(id, later), CREDIT))
    ensures var a := s.affiliates[id];
            var after := Next(Next(s, Paying(id, a, at)), Paying(id, a, later));
            && after.affiliates[id].totalPaid - a.totalEarned == a.totalEarned - a.totalPaid > 0
            && Balance(after.books, a.userId) == Balance(s.books, a.userId) + 2 * (a.totalEarned - a.totalPaid)
  {
    var a := s.affiliates[id];
    BalanceIsSum(s.books, a.userId);
    var once := PayAffiliate(s, id, a, at);
    FoundStaysFound(s.books.txs, once.1.tx, TxKey(a.userId, PayoutRef(id, later), CREDIT));
    var twice := PayAffiliate(once.0, id, a, later);
    assert twice.1.Done?;
  }
}
