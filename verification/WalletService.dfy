/** The statements of the three writers of wallet balances, each writer in its own transaction. */
module WalletService {
  import opened Schema
  import W = Wallet

  class WalletDatabase {
    var balances: map<int, int>
    var txs: seq<W.Tx>
    var ledger: seq<W.LedgerEntry>
    var items: map<int, W.Item>
    var owners: map<int, Option<int>>
    var refunds: map<W.Reference, int>
    var affiliates: map<int, W.Affiliate>

    constructor (s: W.Shop)
      ensures Contents() == s
    {
      balances, txs, ledger := s.books.balances, s.books.txs, s.books.ledger;
      items, owners, refunds, affiliates := s.items, s.owners, s.refunds, s.affiliates;
    }

    function Contents(): W.Shop
      reads this
    {
      W.Shop(W.Books(balances, txs, ledger), items, owners, refunds, affiliates)
    }

    method Rollback(saved: W.Shop)
      modifies this
      ensures Contents() == saved
    {
      balances, txs, ledger := saved.books.balances, saved.books.txs, saved.books.ledger;
      items, owners, refunds, affiliates := saved.items, saved.owners, saved.refunds, saved.affiliates;
    }

    /** Creates the wallet or increments its balance; false is a violation of the CHECK on the balance. */
    method UpsertWallet(userId: int, amount: int) returns (ok: bool)
      modifies this`balances
      ensures ok <==> W.Balance(old(Contents()).books, userId) + amount >= 0
      ensures balances == if ok then old(balances)[userId := W.Balance(old(Contents()).books, userId) + amount]
                          else old(balances)
    {
      var balance := if userId in balances then balances[userId] + amount else amount;
      ok := balance >= 0;
      if ok {
        balances := balances[userId := balance];
      }
    }

    /** Inserts a transaction row; false is a violation of the unique index. */
    method InsertTx(t: W.Tx) returns (ok: bool)
      modifies this`txs
      ensures ok <==> W.FindTx(old(txs), t.key).None?
      ensures txs == if ok then old(txs) + [t] else old(txs)
    {
      ok := W.FindTx(txs, t.key).None?;
      if ok {
        txs := txs + [t];
      }
    }
  }

  method Credit(db: WalletDatabase, userId: int, amount: int, reference: W.Reference) returns (r: W.Outcome)
    modifies db
    ensures var spec := W.Credit(old(db.Contents()).books, userId, amount, reference);
            db.Contents() == old(db.Contents()).(books := spec.0) && r == spec.1
  {
    var saved := db.Contents();
    var ok := db.UpsertWallet(userId, amount);
    if !ok {
      return W.Refused(W.CheckViolation);
    }
    if db.balances[userId] > W.MAX_WALLET_BALANCE {
      db.Rollback(saved);
      return W.Refused(W.CapExceeded);
    }
    var t := W.Tx(W.TxKey(userId, reference, W.CREDIT), amount, db.balances[userId]);
    ok := db.InsertTx(t);
    if !ok {
      db.Rollback(saved);
      return W.Done(W.FindTx(db.txs, t.key).value);
    }
    db.ledger := db.ledger + [W.LedgerEntry(W.WALLET_CREDIT, 0, amount, reference)];
    return W.Done(t);
  }

  method Debit(db: WalletDatabase, userId: int, amount: int, reference: W.Reference) returns (r: W.Outcome)
    modifies db
    ensures var spec := W.Debit(old(db.Contents()).books, userId, amount, reference);
            db.Contents() == old(db.Contents()).(books := spec.0) && r == spec.1
  {
    var saved := db.Contents();
    if userId !in db.balances {
      return W.Refused(W.WalletNotFound);
    }
    if db.balances[userId] < amount {
      return W.Refused(W.InsufficientBalance);
    }
    db.balances := db.balances[userId := db.balances[userId] - amount];
    var t := W.Tx(W.TxKey(userId, reference, W.DEBIT), amount, db.balances[userId]);
    var ok := db.InsertTx(t);
    if !ok {
      db.Rollback(saved);
      return W.Done(W.FindTx(db.txs, t.key).value);
    }
    db.ledger := db.ledger + [W.LedgerEntry(W.WALLET_DEBIT, amount, 0, reference)];
    return W.Done(t);
  }

  /** `uuid` is the random part of the reference. */
  method Withdraw(db: WalletDatabase, userId: int, amount: int, uuid: string) returns (r: W.Outcome)
    modifies db
    ensures var spec := W.Debit(old(db.Contents()).books, userId, amount, W.TextRef("withdrawal:" + uuid));
            db.Contents() == old(db.Contents()).(books := spec.0) && r == spec.1
  {
    r := Debit(db, userId, amount, W.TextRef("withdrawal:" + uuid));
  }

  /** However often it is called, an order is refunded to the wallet at most once. */
  method RefundToWallet(db: WalletDatabase, userId: int, amount: int, orderId: int) returns (r: W.Outcome)
    modifies db
    ensures var spec := W.Credit(old(db.Contents()).books, userId, amount, W.OrderRefundRef(orderId));
            db.Contents() == old(db.Contents()).(books := spec.0) && r == spec.1
    ensures var key := W.TxKey(userId, W.OrderRefundRef(orderId), W.CREDIT);
            W.FindTx(old(db.txs), key).Some? ==> db.Contents() == old(db.Contents())
  {
    r := Credit(db, userId, amount, W.OrderRefundRef(orderId));
  }

  /** OrdersService.refundOrderItem. */
  method RefundOrderItem(db: WalletDatabase, orderId: int, itemId: int) returns (r: W.Outcome)
    modifies db
    ensures db.Contents() == W.RefundItem(old(db.Contents()), orderId, itemId).0
    ensures r == W.RefundItem(old(db.Contents()), orderId, itemId).1
  {
    var saved := db.Contents();
    if itemId !in db.items || db.items[itemId].orderId != orderId {
      return W.Refused(W.ItemNotFound);
    }
    var item := db.items[itemId];
    if item.refunded {
      return W.AlreadyRefunded;
    }
    if orderId !in db.owners || db.owners[orderId].None? {
      return W.Refused(W.OrderNotFound);
    }
    var userId, amount, reference := db.owners[orderId].value, item.price * item.quantity,
                                     W.ItemRefundRef(orderId, itemId);
    db.items := db.items[itemId := item.(refunded := true)];
    if amount <= 0 {
      db.Rollback(saved);
      return W.Refused(W.CheckViolation);
    }
    if reference in db.refunds {
      db.Rollback(saved);
      return W.Refused(W.DuplicateReference);
    }
    db.refunds := db.refunds[reference := amount];
    var ok := db.UpsertWallet(userId, amount);
    if !ok {
      db.Rollback(saved);
      return W.Refused(W.CheckViolation);
    }
    var t := W.Tx(W.TxKey(userId, reference, W.CREDIT), amount, db.balances[userId]);
    ok := db.InsertTx(t);
    if !ok {
      db.Rollback(saved);
      return W.Refused(W.DuplicateReference);
    }
    db.ledger := db.ledger + [W.LedgerEntry(W.WALLET_CREDIT, 0, amount, reference)];
    return W.Done(t);
  }

  /** One affiliate's transaction in processPendingPayouts. */
  method PayAffiliate(db: WalletDatabase, id: int, account: W.Affiliate, at: int) returns (r: W.Outcome)
    requires id in db.affiliates
    modifies db
    ensures db.Contents() == W.PayAffiliate(old(db.Contents()), id, account, at).0
    ensures r == W.PayAffiliate(old(db.Contents()), id, account, at).1
  {
    var saved := db.Contents();
    var pending, reference := account.totalEarned - account.totalPaid, W.PayoutRef(id, at);
    db.ledger := db.ledger + [W.LedgerEntry(W.COMMISSION_PAYOUT, pending, 0, reference)];
    var ok := db.UpsertWallet(account.userId, pending);
    if !ok {
      db.Rollback(saved);
      return W.Refused(W.CheckViolation);
    }
    var t := W.Tx(W.TxKey(account.userId, reference, W.CREDIT), pending, db.balances[account.userId]);
    ok := db.InsertTx(t);
    if !ok {
      db.Rollback(saved);
      return W.Refused(W.DuplicateReference);
    }
    var now := db.affiliates[id];
    db.affiliates := db.affiliates[id := now.(totalPaid := now.totalPaid + pending)];
    return W.Done(t);
  }

  // ---------- processPendingPayouts ----------

  /** An account as findMany read it before the loop. */
  datatype AccountRow = AccountRow(id: int, account: W.Affiliate)

  /** The rows are active accounts of the table, each once. */
  ghost predicate FoundIn(rows: seq<AccountRow>, affiliates: map<int, W.Affiliate>) {
    && (forall k :: 0 <= k < |rows| ==>
          rows[k].id in affiliates && affiliates[rows[k].id] == rows[k].account && rows[k].account.isActive)
    && (forall j, k :: 0 <= j < k < |rows| ==> rows[j].id != rows[k].id)
  }

  /** What a run pays to an account. */
  function Pending(account: W.Affiliate): nat {
    if account.totalEarned > account.totalPaid then account.totalEarned - account.totalPaid else 0
  }

  /** The payouts that a run reports after n accounts. */
  function Payouts(rows: seq<AccountRow>, n: nat): seq<(int, int)>
    requires n <= |rows|
  {
    if n == 0 then []
    else
      var row := rows[n - 1];
      Payouts(rows, n - 1) + if Pending(row.account) > 0 then [(row.id, Pending(row.account))] else []
  }

  ghost predicate NoPayouts(steps: seq<W.Step>) {
    forall i :: 0 <= i < |steps| ==> !steps[i].Paying?
  }

  lemma {:induction false} StepsKeepAccounts(s: W.Shop, steps: seq<W.Step>)
    ensures W.Run(s, steps).affiliates.Keys == s.affiliates.Keys
    ensures NoPayouts(steps) ==>
              forall i :: i in s.affiliates ==> W.Run(s, steps).affiliates[i].totalPaid == s.affiliates[i].totalPaid
    decreases |steps|
  {
    if steps != [] {
      StepsKeepAccounts(s, steps[..|steps| - 1]);
      StepKeepsAccounts(W.Run(s, steps[..|steps| - 1]), steps[|steps| - 1]);
    }
  }

  lemma {:induction false} StepKeepsAccounts(s: W.Shop, step: W.Step)
    ensures W.Next(s, step).affiliates.Keys == s.affiliates.Keys
    ensures !step.Paying? ==>
              forall i :: i in s.affiliates ==> W.Next(s, step).affiliates[i].totalPaid == s.affiliates[i].totalPaid
  {
  }

  /** Other requests, one transaction after the other. */
  method Others(db: WalletDatabase, steps: seq<W.Step>)
    requires W.Sound(db.Contents())
    modifies db
    ensures W.Sound(db.Contents()) && db.affiliates.Keys == old(db.affiliates).Keys
    ensures db.Contents() == W.Run(old(db.Contents()), steps)
    ensures NoPayouts(steps) ==>
              forall i :: i in db.affiliates ==> db.affiliates[i].totalPaid == old(db.affiliates)[i].totalPaid
  {
    ghost var start := db.Contents();
    for i := 0 to |steps|
      invariant db.Contents() == W.Run(start, steps[..i])
    {
      Perform(db, steps[i]);
      assert steps[..i + 1][..i] == steps[..i];
    }
    assert steps[..|steps|] == steps;
    StepsKeepAccounts(start, steps);
    W.RunKeepsSound(start, steps);
  }

  /** The first n accounts have been paid what was pending when they were read, the others nothing. */
  ghost predicate PaidUp(rows: seq<AccountRow>, n: nat, before: map<int, W.Affiliate>, now: map<int, W.Affiliate>)
    requires n <= |rows|
  {
    && now.Keys == before.Keys
    && (forall k :: 0 <= k < n && rows[k].id in before ==>
          now[rows[k].id].totalPaid == before[rows[k].id].totalPaid + Pending(rows[k].account))
    && (forall i :: i in before && !Among(rows, n, i) ==> now[i].totalPaid == before[i].totalPaid)
  }

  ghost predicate Among(rows: seq<AccountRow>, n: nat, id: int)
    requires n <= |rows|
  {
    exists k :: 0 <= k < n && rows[k].id == id
  }

  ghost predicate PaidOnly(id: int, amount: nat, before: map<int, W.Affiliate>, now: map<int, W.Affiliate>) {
    && now.Keys == before.Keys
    && forall i :: i in before ==> now[i].totalPaid == before[i].totalPaid + if i == id then amount else 0
  }

  /** The other requests make no payouts before the first n turns. */
  ghost predicate NoOtherRun(between: seq<seq<W.Step>>, n: nat)
    requires n <= |between|
  {
    forall i :: 0 <= i < n ==> NoPayouts(between[i])
  }

  lemma {:induction false} OneMorePaid(rows: seq<AccountRow>, n: nat, between: seq<seq<W.Step>>,
                                       before: map<int, W.Affiliate>, mid: map<int, W.Affiliate>,
                                       now: map<int, W.Affiliate>)
    requires n < |rows| == |between| && FoundIn(rows, before)
    requires NoOtherRun(between, n) ==> PaidUp(rows, n, before, mid)
    requires NoPayouts(between[n]) ==> PaidOnly(rows[n].id, Pending(rows[n].account), mid, now)
    ensures NoOtherRun(between, n + 1) ==> PaidUp(rows, n + 1, before, now)
  {
    if NoOtherRun(between, n + 1) {
      assert NoOtherRun(between, n) && NoPayouts(between[n]);
      assert !Among(rows, n, rows[n].id);
      forall i | i in before && !Among(rows, n + 1, i)
        ensures !Among(rows, n, i) && rows[n].id != i
      {
      }
    }
  }

  lemma {:induction false} NothingPaid(rows: seq<AccountRow>, n: nat, between: seq<seq<W.Step>>,
                                       before: map<int, W.Affiliate>, mid: map<int, W.Affiliate>,
                                       now: map<int, W.Affiliate>)
    requires n < |rows| == |between|
    requires NoOtherRun(between, n) ==> PaidUp(rows, n, before, mid)
    requires NoPayouts(between[n]) ==> PaidOnly(rows[n].id, 0, mid, now)
    ensures NoOtherRun(between, n + 1) ==> PaidUp(rows, n, before, now)
  {
  }

  /** One turn of the loop: the others, then the payout on the account as it was read. */
  method PayAfter(db: WalletDatabase, row: AccountRow, at: int, others: seq<W.Step>) returns (ok: bool)
    requires W.Sound(db.Contents()) && row.id in db.affiliates
    modifies db
    ensures W.Sound(db.Contents()) && db.affiliates.Keys == old(db.affiliates).Keys
    ensures NoPayouts(others) ==>
              PaidOnly(row.id, if ok then Pending(row.account) else 0, old(db.affiliates), db.affiliates)
    ensures !ok ==> W.FindTx(db.txs, PayoutKey(row, at)).Some?
  {
    Others(db, others);
    ok := true;
    if Pending(row.account) > 0 {
      PayoutPays(db.Contents(), row, at);
      var r := PayAffiliate(db, row.id, row.account, at);
      ok := r.Done?;
    }
  }

  /** A payout that is refused found its reference recorded. */
  lemma {:induction false} PayoutPays(s: W.Shop, row: AccountRow, at: int)
    requires W.Sound(s) && row.id in s.affiliates && Pending(row.account) > 0
    ensures var (after, r) := W.PayAffiliate(s, row.id, row.account, at);
            && W.Sound(after)
            && (r.Done? ==> PaidOnly(row.id, Pending(row.account), s.affiliates, after.affiliates))
            && (!r.Done? ==> after == s && W.FindTx(s.books.txs, PayoutKey(row, at)).Some?)
  {
    W.PayoutKeepsSound(s, row.id, row.account, at);
    W.BalanceIsSum(s.books, row.account.userId);
  }

  function PayoutKey(row: AccountRow, at: int): W.TxKey {
    W.TxKey(row.account.userId, W.PayoutRef(row.id, at), W.CREDIT)
  }

  /** AffiliateService.processPendingPayouts: `rows` are the active accounts as findMany read them, `clock` the time at
      each, `between` what other requests do before its turn. Unless a second run interferes, each account is paid
      what was pending when it was read. A transaction throws, and ends the run, only if its reference is recorded. */
  method ProcessPendingPayouts(db: WalletDatabase, rows: seq<AccountRow>, clock: seq<int>, between: seq<seq<W.Step>>)
    returns (ok: bool, paid: nat, results: seq<(int, int)>)
    requires W.Sound(db.Contents()) && FoundIn(rows, db.affiliates) && |rows| == |clock| == |between|
    modifies db
    ensures W.Sound(db.Contents())
    ensures paid <= |rows| && results == Payouts(rows, paid) && (ok <==> paid == |rows|)
    ensures !ok ==> W.FindTx(db.txs, PayoutKey(rows[paid], clock[paid])).Some?
    ensures NoOtherRun(between, if ok then paid else paid + 1) ==>
              PaidUp(rows, paid, old(db.affiliates), db.affiliates)
  {
    ghost var before := db.affiliates;
    ok, paid, results := true, 0, [];
    while paid < |rows|
      invariant W.Sound(db.Contents()) && db.affiliates.Keys == before.Keys
      invariant paid <= |rows| && results == Payouts(rows, paid)
      invariant NoOtherRun(between, paid) ==> PaidUp(rows, paid, before, db.affiliates)
    {
      ghost var mid := db.affiliates;
      var row := rows[paid];
      ok := PayAfter(db, row, clock[paid], between[paid]);
      if !ok {
        NothingPaid(rows, paid, between, before, mid, db.affiliates);
        return;
      }
      OneMorePaid(rows, paid, between, before, mid, db.affiliates);
      if Pending(row.account) > 0 {
        results := results + [(row.id, Pending(row.account))];
      }
      paid := paid + 1;
    }
  }

  /** A finished run leaves nothing pending of what active accounts had earned when they were read. */
  lemma {:induction false} NothingIsPending(rows: seq<AccountRow>, before: map<int, W.Affiliate>,
                                            now: map<int, W.Affiliate>)
    requires FoundIn(rows, before) && PaidUp(rows, |rows|, before, now)
    requires forall i :: i in before && before[i].isActive ==> Among(rows, |rows|, i)
    ensures forall i :: i in before && before[i].isActive ==> before[i].totalEarned <= now[i].totalPaid
  {
    forall i | i in before && before[i].isActive
      ensures before[i].totalEarned <= now[i].totalPaid
    {
      var k :| 0 <= k < |rows| && rows[k].id == i;
    }
  }

  /** Every step of the wallet machine is one of these transactions. */
  method Perform(db: WalletDatabase, step: W.Step)
    modifies db
    ensures db.Contents() == W.Next(old(db.Contents()), step)
  {
    match step {
      case Opening(userId) =>
        if userId !in db.balances {
          db.balances := db.balances[userId := 0];
        }
      case Crediting(userId, amount, reference) =>
        var _ := Credit(db, userId, amount, reference);
      case Debiting(userId, amount, reference) =>
        var _ := Debit(db, userId, amount, reference);
      case Refunding(orderId, itemId) =>
        var _ := RefundOrderItem(db, orderId, itemId);
      case Paying(id, account, at) =>
        if id in db.affiliates && account.totalEarned > account.totalPaid {
          var _ := PayAffiliate(db, id, account, at);
        }
      case Earning(id, commission) =>
        if id in db.affiliates {
          var account := db.affiliates[id];
          db.affiliates := db.affiliates[id := account.(totalEarned := account.totalEarned + commission)];
        }
    }
  }
}
