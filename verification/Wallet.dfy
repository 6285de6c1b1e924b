/** Wallet balances, their transaction rows, and the double-entry ledger, with the three services that write them.

Amounts are integers in minor units. A row of a CHECK constraint or of a unique index that a statement would violate
makes the transaction throw, and nothing it wrote stays.
*/
module Wallet {
  import opened Schema
  import Sums

  const MAX_WALLET_BALANCE := 100_000 * 100

  datatype TxType = CREDIT | DEBIT

  /** The reference texts that the services build, and any other text. */
  datatype Reference =
    | CashbackRef(orderId: int)
    | OrderRefundRef(orderId: int)
    | ItemRefundRef(orderId: int, itemId: int)
    | PayoutRef(affiliateId: int, at: int)
    | TextRef(text: string)

  /** The unique key of WalletTransaction; a user has one wallet. */
  datatype TxKey = TxKey(userId: int, reference: Reference, kind: TxType)

  datatype Tx = Tx(key: TxKey, amount: int, balanceAfter: int)

  datatype LedgerType = WALLET_CREDIT | WALLET_DEBIT | COMMISSION_PAYOUT

  datatype LedgerEntry = LedgerEntry(kind: LedgerType, debitAmount: int, creditAmount: int, reference: Reference)

  datatype Books = Books(balances: map<int, int>, txs: seq<Tx>, ledger: seq<LedgerEntry>)

  datatype Item = Item(orderId: int, price: int, quantity: int, refunded: bool)

  datatype Affiliate = Affiliate(userId: int, totalEarned: int, totalPaid: int, isActive: bool)

  /** `owners` is the user of each order; `refunds` is the amount of each refund request by its unique reference. */
  datatype Shop = Shop(books: Books, items: map<int, Item>, owners: map<int, Option<int>>,
                       refunds: map<Reference, int>, affiliates: map<int, Affiliate>)

  datatype Error =
    | WalletNotFound | InsufficientBalance | CapExceeded | CheckViolation | DuplicateReference | ItemNotFound
    | OrderNotFound

  datatype Outcome = Done(tx: Tx) | AlreadyRefunded | Refused(error: Error)

  // ---------- Statements ----------

  function Balance(b: Books, userId: int): int {
    if userId in b.balances then b.balances[userId] else 0
  }

  /** findFirst by the unique key. */
  function FindTx(txs: seq<Tx>, key: TxKey): (r: Option<Tx>)
    ensures r.Some? ==> r.value in txs && r.value.key == key
    ensures r.None? ==> forall t :: t in txs ==> t.key != key
  {
    if txs == [] then None else if txs[0].key == key then Some(txs[0]) else FindTx(txs[1..], key)
  }

  /** The wallet write, the transaction row and the ledger row of one movement. */
  function Posted(b: Books, t: Tx, e: LedgerEntry): Books {
    Books(b.balances[t.key.userId := t.balanceAfter], b.txs + [t], b.ledger + [e])
  }

  // ---------- WalletService ----------

  function Credit(b: Books, userId: int, amount: int, reference: Reference): (Books, Outcome) {
    var key, balance := TxKey(userId, reference, CREDIT), Balance(b, userId) + amount;
    if balance < 0 then (b, Refused(CheckViolation))
    else if balance > MAX_WALLET_BALANCE then (b, Refused(CapExceeded))
    else
      match FindTx(b.txs, key)
      case Some(existing) => (b, Done(existing))
      case None =>
        var t := Tx(key, amount, balance);
        (Posted(b, t, LedgerEntry(WALLET_CREDIT, 0, amount, reference)), Done(t))
  }

  function Debit(b: Books, userId: int, amount: int, reference: Reference): (Books, Outcome) {
    var key, balance := TxKey(userId, reference, DEBIT), Balance(b, userId) - amount;
    if userId !in b.balances then (b, Refused(WalletNotFound))
    else if b.balances[userId] < amount then (b, Refused(InsufficientBalance))
    else
      match FindTx(b.txs, key)
      case Some(existing) => (b, Done(existing))
      case None =>
        var t := Tx(key, amount, balance);
        (Posted(b, t, LedgerEntry(WALLET_DEBIT, amount, 0, reference)), Done(t))
  }

  /** getWallet creates an empty wallet at the first look. */
  function OpenWallet(b: Books, userId: int): Books {
    if userId in b.balances then b else b.(balances := b.balances[userId := 0])
  }

  // ---------- The two other writers ----------

  /** The writes of an item refund, whose transaction row is t. */
  function Refunded(s: Shop, itemId: int, t: Tx): Shop
    requires itemId in s.items
  {
    s.(books := Posted(s.books, t, LedgerEntry(WALLET_CREDIT, 0, t.amount, t.key.reference)),
       items := s.items[itemId := s.items[itemId].(refunded := true)],
       refunds := s.refunds[t.key.reference := t.amount])
  }

  /** OrdersService.refundOrderItem. */
  function RefundItem(s: Shop, orderId: int, itemId: int): (Shop, Outcome) {
    if itemId !in s.items || s.items[itemId].orderId != orderId then (s, Refused(ItemNotFound))
    else if s.items[itemId].refunded then (s, AlreadyRefunded)
    else if orderId !in s.owners || s.owners[orderId].None? then (s, Refused(OrderNotFound))
    else
      var item, userId, reference := s.items[itemId], s.owners[orderId].value, ItemRefundRef(orderId, itemId);
      var amount, key := item.price * item.quantity, TxKey(userId, reference, CREDIT);
      var balance := Balance(s.books, userId) + amount;
      if amount <= 0 then (s, Refused(CheckViolation))
      else if reference in s.refunds then (s, Refused(DuplicateReference))
      else if balance < 0 then (s, Refused(CheckViolation))
      else if FindTx(s.books.txs, key).Some? then (s, Refused(DuplicateReference))
      else
        var t := Tx(key, amount, balance);
        (Refunded(s, itemId, t), Done(t))
  }

  /** The writes of a payout, whose transaction row is t. */
  function PaidOut(s: Shop, id: int, t: Tx): Shop
    requires id in s.affiliates
  {
    s.(books := Posted(s.books, t, LedgerEntry(COMMISSION_PAYOUT, t.amount, 0, t.key.reference)),
       affiliates := s.affiliates[id := s.affiliates[id].(totalPaid := s.affiliates[id].totalPaid + t.amount)])
  }

  /** The transaction of one affiliate in processPendingPayouts; `account` was read before the loop began. */
  function PayAffiliate(s: Shop, id: int, account: Affiliate, at: int): (Shop, Outcome)
    requires id in s.affiliates
  {
    var pending, reference := account.totalEarned - account.totalPaid, PayoutRef(id, at);
    var key, balance := TxKey(account.userId, reference, CREDIT), Balance(s.books, account.userId) + pending;
    if balance < 0 then (s, Refused(CheckViolation))
    else if FindTx(s.books.txs, key).Some? then (s, Refused(DuplicateReference))
    else
      var t := Tx(key, pending, balance);
      (PaidOut(s, id, t), Done(t))
  }

  // ---------- What the books promise ----------

  function Signed(t: Tx): int {
    if t.key.kind.CREDIT? then t.amount else -t.amount
  }

  /** Signed sum of one user's transactions. */
  function SumOf(txs: seq<Tx>, userId: int): int {
    if txs == [] then 0
    else
      var last := txs[|txs| - 1];
      SumOf(txs[..|txs| - 1], userId) + if last.key.userId == userId then Signed(last) else 0
  }

  function Total(ledger: seq<LedgerEntry>, kind: LedgerType): int {
    if ledger == [] then 0
    else
      var last := ledger[|ledger| - 1];
      Total(ledger[..|ledger| - 1], kind) + if last.kind == kind then last.debitAmount + last.creditAmount else 0
  }

  function Amount(userId: int, balance: int): int {
    balance
  }

  ghost function TotalBalance(balances: map<int, int>): int {
    Sums.SumRows(balances, Amount)
  }

  ghost predicate UniqueKeys(txs: seq<Tx>) {
    forall i, j :: 0 <= i < j < |txs| ==> txs[i].key != txs[j].key
  }

  /** Every row's balanceAfter is the running sum of its user. */
  ghost predicate RunningBalances(txs: seq<Tx>) {
    forall i :: 0 <= i < |txs| ==> txs[i].balanceAfter == SumOf(txs[..i + 1], txs[i].key.userId)
  }

  ghost predicate Balanced(b: Books) {
    && (forall u :: u in b.balances ==> 0 <= b.balances[u] == SumOf(b.txs, u))
    && (forall t :: t in b.txs ==> t.key.userId in b.balances)
    && UniqueKeys(b.txs) && RunningBalances(b.txs)
  }

  /** Double entry: what users hold is what the ledger says was paid in, less what was paid out. */
  ghost predicate DoubleEntry(b: Books) {
    TotalBalance(b.balances)
    == Total(b.ledger, WALLET_CREDIT) - Total(b.ledger, WALLET_DEBIT) + Total(b.ledger, COMMISSION_PAYOUT)
  }

  lemma {:induction false} PrefixesStay(txs: seq<Tx>, t: Tx)
    requires RunningBalances(txs) && t.balanceAfter == SumOf(txs, t.key.userId) + Signed(t)
    ensures RunningBalances(txs + [t])
  {
    var longer := txs + [t];
    assert longer[..|longer| - 1] == txs && longer[..|longer|] == longer;
    forall i | 0 <= i < |txs|
      ensures longer[i].balanceAfter == SumOf(longer[..i + 1], longer[i].key.userId)
    {
      assert longer[..i + 1] == txs[..i + 1];
    }
  }

  lemma {:induction false} StrangersHaveNoSum(b: Books, u: int)
    requires forall t :: t in b.txs ==> t.key.userId != u
    ensures SumOf(b.txs, u) == 0
    decreases |b.txs|
  {
    if b.txs != [] {
      StrangersHaveNoSum(b.(txs := b.txs[..|b.txs| - 1]), u);
    }
  }

  lemma {:induction false} BalanceIsSum(b: Books, u: int)
    requires Balanced(b)
    ensures Balance(b, u) == SumOf(b.txs, u)
  {
    if u !in b.balances {
      StrangersHaveNoSum(b, u);
    }
  }

  lemma {:induction false} PostKeepsBalanced(b: Books, t: Tx, e: LedgerEntry)
    requires Balanced(b) && FindTx(b.txs, t.key).None?
    requires t.balanceAfter == Balance(b, t.key.userId) + Signed(t) >= 0
    ensures Balanced(Posted(b, t, e))
  {
    var after := Posted(b, t, e);
    assert after.txs[..|after.txs| - 1] == b.txs;
    BalanceIsSum(b, t.key.userId);
    PrefixesStay(b.txs, t);
    forall u | u in after.balances
      ensures 0 <= after.balances[u] == SumOf(after.txs, u)
    {
      BalanceIsSum(b, u);
    }
  }

  /** The effect of a ledger row on the total of all balances. */
  function Effect(e: LedgerEntry): int {
    if e.kind.WALLET_DEBIT? then -(e.debitAmount + e.creditAmount) else e.debitAmount + e.creditAmount
  }

  lemma {:induction false} PostKeepsDoubleEntry(b: Books, t: Tx, e: LedgerEntry)
    requires DoubleEntry(b) && Effect(e) == t.balanceAfter - Balance(b, t.key.userId)
    ensures DoubleEntry(Posted(b, t, e))
  {
    Sums.SumRowsUpdate(b.balances, Amount, t.key.userId, t.balanceAfter);
    assert (b.ledger + [e])[..|b.ledger|] == b.ledger;
  }

  // ---------- Any run of the writers ----------

  /** `Paying` carries the account as the payout run read it, which other steps may have overtaken. */
  datatype Step =
    | Opening(userId: int)
    | Crediting(userId: int, amount: int, reference: Reference)
    | Debiting(userId: int, amount: int, reference: Reference)
    | Refunding(orderId: int, itemId: int)
    | Paying(affiliateId: int, account: Affiliate, at: int)
    | Earning(affiliateId: int, commission: int)

  function Next(s: Shop, step: Step): Shop {
    match step
    case Opening(userId) => s.(books := OpenWallet(s.books, userId))
    case Crediting(userId, amount, reference) => s.(books := Credit(s.books, userId, amount, reference).0)
    case Debiting(userId, amount, reference) => s.(books := Debit(s.books, userId, amount, reference).0)
    case Refunding(orderId, itemId) => RefundItem(s, orderId, itemId).0
    case Paying(id, account, at) =>
      if id in s.affiliates && account.totalEarned > account.totalPaid then PayAffiliate(s, id, account, at).0 else s
    case Earning(id, commission) =>
      if id !in s.affiliates then s
      else
        var account := s.affiliates[id];
        s.(affiliates := s.affiliates[id := account.(totalEarned := account.totalEarned + commission)])
  }

  function Run(s: Shop, steps: seq<Step>): Shop {
    if steps == [] then s else Next(Run(s, steps[..|steps| - 1]), steps[|steps| - 1])
  }

  function Paid(id: int, account: Affiliate): int {
    account.totalPaid
  }

  ghost function TotalPaid(affiliates: map<int, Affiliate>): int {
    Sums.SumRows(affiliates, Paid)
  }

  /** The wallet row of a refunded item. */
  ghost predicate RefundIsRecorded(s: Shop, itemId: int)
    requires itemId in s.items
  {
    var item := s.items[itemId];
    && item.orderId in s.owners && s.owners[item.orderId].Some?
    && var key := TxKey(s.owners[item.orderId].value, ItemRefundRef(item.orderId, itemId), CREDIT);
       && FindTx(s.books.txs, key).Some?
       && FindTx(s.books.txs, key).value.amount == item.price * item.quantity > 0
  }

  ghost predicate Sound(s: Shop) {
    && Balanced(s.books) && DoubleEntry(s.books)
    && TotalPaid(s.affiliates) == Total(s.books.ledger, COMMISSION_PAYOUT)
    && RefundsRecorded(s)
  }

  lemma {:induction false} FoundStaysFound(txs: seq<Tx>, t: Tx, key: TxKey)
    ensures FindTx(txs, key).Some? ==> FindTx(txs + [t], key) == FindTx(txs, key)
    ensures FindTx(txs, key).None? ==> FindTx(txs + [t], key) == if t.key == key then Some(t) else None
  {
    if txs == [] {
      assert FindTx([t][1..], key) == None;
    } else {
      assert (txs + [t])[1..] == txs[1..] + [t];
      FoundStaysFound(txs[1..], t, key);
    }
  }

  /** Adding a movement keeps the wallet rows of all refunded items. */
  lemma {:induction false} PostKeepsRefunds(s: Shop, after: Shop, t: Tx, e: LedgerEntry)
    requires RefundsRecorded(s)
    requires after.books == Posted(s.books, t, e) && after.items == s.items && after.owners == s.owners
    ensures RefundsRecorded(after)
  {
    forall i | i in s.items && s.items[i].refunded
      ensures RefundIsRecorded(after, i)
    {
      var item := s.items[i];
      FoundStaysFound(s.books.txs, t, TxKey(s.owners[item.orderId].value, ItemRefundRef(item.orderId, i), CREDIT));
    }
  }

  lemma {:induction false} PostKeepsPayouts(s: Shop, e: LedgerEntry)
    ensures Total(s.books.ledger + [e], COMMISSION_PAYOUT)
         == Total(s.books.ledger, COMMISSION_PAYOUT)
            + if e.kind.COMMISSION_PAYOUT? then e.debitAmount + e.creditAmount else 0
  {
    assert (s.books.ledger + [e])[..|s.books.ledger|] == s.books.ledger;
  }

  ghost predicate RefundsRecorded(s: Shop) {
    forall i :: i in s.items && s.items[i].refunded ==> RefundIsRecorded(s, i)
  }

  lemma {:induction false} MoveKeepsBooks(s: Shop, t: Tx, e: LedgerEntry)
    requires Balanced(s.books) && DoubleEntry(s.books) && RefundsRecorded(s) && FindTx(s.books.txs, t.key).None?
    requires t.balanceAfter == Balance(s.books, t.key.userId) + Signed(t) >= 0 && Effect(e) == Signed(t)
    ensures var after := s.(books := Posted(s.books, t, e));
            Balanced(after.books) && DoubleEntry(after.books) && RefundsRecorded(after)
  {
    PostKeepsBalanced(s.books, t, e);
    PostKeepsDoubleEntry(s.books, t, e);
    PostKeepsRefunds(s, s.(books := Posted(s.books, t, e)), t, e);
  }

  lemma {:induction false} MoveKeepsSound(s: Shop, after: Shop, t: Tx, e: LedgerEntry)
    requires Sound(s) && FindTx(s.books.txs, t.key).None?
    requires t.balanceAfter == Balance(s.books, t.key.userId) + Signed(t) >= 0 && Effect(e) == Signed(t)
    requires after == s.(books := Posted(s.books, t, e)) && !e.kind.COMMISSION_PAYOUT?
    ensures Sound(after)
  {
    MoveKeepsBooks(s, t, e);
    PostKeepsPayouts(s, e);
  }

  lemma {:induction false} CreditKeepsSound(s: Shop, userId: int, amount: int, reference: Reference)
    requires Sound(s)
    ensures Sound(s.(books := Credit(s.books, userId, amount, reference).0))
  {
    var b, r := s.books, Credit(s.books, userId, amount, reference);
    if r.0 == b {
      assert s.(books := b) == s;
    } else {
      MoveKeepsSound(s, s.(books := r.0), r.1.tx, LedgerEntry(WALLET_CREDIT, 0, amount, reference));
    }
  }

  lemma {:induction false} DebitKeepsSound(s: Shop, userId: int, amount: int, reference: Reference)
    requires Sound(s)
    ensures Sound(s.(books := Debit(s.books, userId, amount, reference).0))
  {
    var b, r := s.books, Debit(s.books, userId, amount, reference);
    if r.0 == b {
      assert s.(books := b) == s;
    } else {
      MoveKeepsSound(s, s.(books := r.0), r.1.tx, LedgerEntry(WALLET_DEBIT, amount, 0, reference));
    }
  }

  ghost predicate IsCredit(b: Books, t: Tx) {
    t.key.kind.CREDIT? && FindTx(b.txs, t.key).None? && t.balanceAfter == Balance(b, t.key.userId) + t.amount >= 0
  }

  lemma {:induction false} RefundedKeepsSound(s: Shop, itemId: int, t: Tx)
    requires Sound(s) && IsCredit(s.books, t) && itemId in s.items
    requires var item := s.items[itemId];
             && item.orderId in s.owners && s.owners[item.orderId].Some? && t.amount == item.price * item.quantity > 0
             && t.key == TxKey(s.owners[item.orderId].value, ItemRefundRef(item.orderId, itemId), CREDIT)
    ensures Sound(Refunded(s, itemId, t))
  {
    var e, after := LedgerEntry(WALLET_CREDIT, 0, t.amount, t.key.reference), Refunded(s, itemId, t);
    var moved := s.(books := Posted(s.books, t, e));
    MoveKeepsSound(s, moved, t, e);
    FoundStaysFound(s.books.txs, t, t.key);
    forall i | i in after.items && after.items[i].refunded
      ensures RefundIsRecorded(after, i)
    {
      assert i != itemId ==> RefundIsRecorded(moved, i);
    }
  }

  lemma {:induction false} RefundKeepsSound(s: Shop, orderId: int, itemId: int)
    requires Sound(s)
    ensures Sound(RefundItem(s, orderId, itemId).0)
  {
    var r := RefundItem(s, orderId, itemId);
    if r.1.Done? {
      RefundedKeepsSound(s, itemId, r.1.tx);
    }
  }

  lemma {:induction false} RefundsIgnoreAffiliates(s: Shop, affiliates: map<int, Affiliate>)
    requires RefundsRecorded(s)
    ensures RefundsRecorded(s.(affiliates := affiliates))
  {
    var after := s.(affiliates := affiliates);
    forall i | i in after.items && after.items[i].refunded
      ensures RefundIsRecorded(after, i)
    {
      assert RefundIsRecorded(s, i);
    }
  }

  lemma {:induction false} PaidOutKeepsSound(s: Shop, id: int, t: Tx)
    requires Sound(s) && IsCredit(s.books, t) && id in s.affiliates
    ensures Sound(PaidOut(s, id, t))
  {
    var e := LedgerEntry(COMMISSION_PAYOUT, t.amount, 0, t.key.reference);
    var moved, account := s.(books := Posted(s.books, t, e)), s.affiliates[id];
    MoveKeepsBooks(s, t, e);
    PostKeepsPayouts(s, e);
    Sums.SumRowsUpdate(s.affiliates, Paid, id, account.(totalPaid := account.totalPaid + t.amount));
    RefundsIgnoreAffiliates(moved, PaidOut(s, id, t).affiliates);
  }

  lemma {:induction false} PayoutKeepsSound(s: Shop, id: int, account: Affiliate, at: int)
    requires Sound(s) && id in s.affiliates
    ensures Sound(PayAffiliate(s, id, account, at).0)
  {
    var r := PayAffiliate(s, id, account, at);
    if r.1.Done? {
      PaidOutKeepsSound(s, id, r.1.tx);
    }
  }

  lemma {:induction false} OpenKeepsSound(s: Shop, userId: int)
    requires Sound(s)
    ensures Sound(s.(books := OpenWallet(s.books, userId)))
  {
    if userId !in s.books.balances {
      BalanceIsSum(s.books, userId);
      Sums.SumRowsUpdate(s.books.balances, Amount, userId, 0);
      var after := s.(books := OpenWallet(s.books, userId));
      forall i | i in after.items && after.items[i].refunded
        ensures RefundIsRecorded(after, i)
      {
        assert RefundIsRecorded(s, i);
      }
    }
  }

  lemma {:induction false} EarnKeepsSound(s: Shop, id: int, account: Affiliate)
    requires Sound(s) && id in s.affiliates && account.totalPaid == s.affiliates[id].totalPaid
    ensures Sound(s.(affiliates := s.affiliates[id := account]))
  {
    Sums.SumRowsUpdate(s.affiliates, Paid, id, account);
    RefundsIgnoreAffiliates(s, s.affiliates[id := account]);
  }

  lemma {:induction false} StepKeepsSound(s: Shop, step: Step)
    requires Sound(s)
    ensures Sound(Next(s, step))
  {
    match step
    case Opening(userId) => OpenKeepsSound(s, userId);
    case Crediting(userId, amount, reference) => CreditKeepsSound(s, userId, amount, reference);
    case Debiting(userId, amount, reference) => DebitKeepsSound(s, userId, amount, reference);
    case Refunding(orderId, itemId) => RefundKeepsSound(s, orderId, itemId);
    case Paying(id, account, at) =>
      if id in s.affiliates {
        PayoutKeepsSound(s, id, account, at);
      }
    case Earning(id, commission) =>
      if id in s.affiliates {
        EarnKeepsSound(s, id, s.affiliates[id].(totalEarned := s.affiliates[id].totalEarned + commission));
      }
  }

  lemma {:induction false} RunKeepsSound(s: Shop, steps: seq<Step>)
    requires Sound(s)
    ensures Sound(Run(s, steps))
    decreases |steps|
  {
    if steps != [] {
      RunKeepsSound(s, steps[..|steps| - 1]);
      StepKeepsSound(Run(s, steps[..|steps| - 1]), steps[|steps| - 1]);
    }
  }

  ghost predicate Initial(s: Shop) {
    && s.books == Books(map[], [], []) && s.refunds == map[]
    && (forall i :: i in s.items ==> !s.items[i].refunded)
    && (forall id :: id in s.affiliates ==> s.affiliates[id].totalPaid == 0)
  }

  /** In every reachable state: balances are non-negative signed sums with running balances, double entry holds, what
      affiliates were paid is what the ledger paid them, and every refunded item has its one wallet row. */
  lemma {:induction false} ReachableBooksAreSound(s: Shop, steps: seq<Step>)
    requires Initial(s)
    ensures Sound(Run(s, steps))
  {
    Sums.SumRowsZero(s.books.balances, Amount);
    Sums.SumRowsZero(s.affiliates, Paid);
    RunKeepsSound(s, steps);
  }
}
