/** What each movement of money decides, in every state whose balances agree with the rows and so in every run: when it
    is made, what it then writes, and that it touches nobody else. Balances are stated as the signed sums of the rows,
    which are zero for a user without any. */
module WalletLaws {
  import opened Schema
  import opened Wallet
  import R = WalletReplays

  /** The row t and the ledger entry e were posted, and nothing else moved money. */
  ghost predicate Landed(before: Books, after: Books, t: Tx, e: LedgerEntry) {
    && after.txs == before.txs + [t] && after.ledger == before.ledger + [e]
    && t.balanceAfter == SumOf(before.txs, t.key.userId) + Signed(t)
    && after.balances == before.balances[t.key.userId := t.balanceAfter]
  }

  /** What the books say of a user's wallet is what the rows say. */
  ghost predicate Agrees(b: Books, u: int) {
    Balance(b, u) == SumOf(b.txs, u)
  }

  /** Whoever landed a row has exactly its amount more or less, and nobody else has. */
  lemma {:induction false} LandedMoves(before: Books, after: Books, t: Tx, e: LedgerEntry, u: int)
    requires Agrees(before, t.key.userId) && Landed(before, after, t, e)
    ensures Balance(after, u) == Balance(before, u) + if u == t.key.userId then Signed(t) else 0
    ensures SumOf(after.txs, u) == SumOf(before.txs, u) + if u == t.key.userId then Signed(t) else 0
  {
    assert after.txs[..|before.txs|] == before.txs;
  }

  /** In every run they agree, and nobody is below zero. */
  lemma {:induction false} RowsAgree(s: Shop, steps: seq<Step>, u: int)
    requires Initial(s)
    ensures Agrees(Run(s, steps).books, u) && SumOf(Run(s, steps).books.txs, u) >= 0
  {
    ReachableBooksAreSound(s, steps);
    BalanceIsSum(Run(s, steps).books, u);
  }

  /** A credit is made exactly if its reference is new for the user and the new sum is within bounds; the first credit
      of a user creates the wallet. */
  lemma {:induction false} CreditLandsIff(s: Shop, u: int, amount: int, reference: Reference)
    requires Agrees(s.books, u)
    ensures var out, sum := Next(s, Crediting(u, amount, reference)), SumOf(s.books.txs, u) + amount;
            if 0 <= sum <= 10_000_000 && !R.Recorded(s, TxKey(u, reference, CREDIT)) then
              && Landed(s.books, out.books, Tx(TxKey(u, reference, CREDIT), amount, sum),
                        LedgerEntry(WALLET_CREDIT, 0, amount, reference))
              && out == s.(books := out.books)
            else out == s
  {
    assert s.(books := s.books) == s;
  }

  /** A debit: exactly if the user has a wallet, the sum of the rows covers it, and its reference is new. */
  lemma {:induction false} DebitLandsIff(s: Shop, u: int, amount: int, reference: Reference)
    requires Agrees(s.books, u)
    ensures var out, sum := Next(s, Debiting(u, amount, reference)), SumOf(s.books.txs, u) - amount;
            if u in s.books.balances && 0 <= sum && !R.Recorded(s, TxKey(u, reference, DEBIT)) then
              && Landed(s.books, out.books, Tx(TxKey(u, reference, DEBIT), amount, sum),
                        LedgerEntry(WALLET_DEBIT, amount, 0, reference))
              && out == s.(books := out.books)
            else out == s
  {
    assert s.(books := s.books) == s;
  }

  /** What an item refund would pay. */
  predicate Owed(s: Shop, orderId: int, itemId: int, u: int) {
    && itemId in s.items && s.items[itemId].orderId == orderId && !s.items[itemId].refunded
    && orderId in s.owners && s.owners[orderId] == Some(u) && s.items[itemId].price * s.items[itemId].quantity > 0
  }

  /** An item refund: exactly if the item belongs to the order, has not been refunded, has an owner and a price, and
      neither a request nor a row has its reference. The item is refunded with it. */
  lemma {:induction false} RefundLandsIff(s: Shop, orderId: int, itemId: int, u: int)
    requires Agrees(s.books, u) && SumOf(s.books.txs, u) >= 0
    requires orderId in s.owners && s.owners[orderId].Some? ==> s.owners[orderId] == Some(u)
    ensures var out, reference := Next(s, Refunding(orderId, itemId)), ItemRefundRef(orderId, itemId);
            if Owed(s, orderId, itemId, u) && reference !in s.refunds
               && !R.Recorded(s, TxKey(u, reference, CREDIT))
            then
              var item := s.items[itemId];
              var amount := item.price * item.quantity;
              && Landed(s.books, out.books, Tx(TxKey(u, reference, CREDIT), amount, SumOf(s.books.txs, u) + amount),
                        LedgerEntry(WALLET_CREDIT, 0, amount, reference))
              && out == s.(books := out.books, items := s.items[itemId := item.(refunded := true)],
                           refunds := s.refunds[reference := amount])
            else out == s
  {
  }

  /** A payout: exactly if something was pending when the account was read and its reference is new. */
  lemma {:induction false} PayoutLandsIff(s: Shop, id: int, account: Affiliate, at: int)
    requires Agrees(s.books, account.userId) && SumOf(s.books.txs, account.userId) >= 0 && id in s.affiliates
    ensures var out, reference := Next(s, Paying(id, account, at)), PayoutRef(id, at);
            var u, amount := account.userId, account.totalEarned - account.totalPaid;
            if amount > 0 && !R.Recorded(s, TxKey(u, reference, CREDIT)) then
              && Landed(s.books, out.books, Tx(TxKey(u, reference, CREDIT), amount, SumOf(s.books.txs, u) + amount),
                        LedgerEntry(COMMISSION_PAYOUT, amount, 0, reference))
              && out == s.(books := out.books, affiliates := s.affiliates[id :=
                             s.affiliates[id].(totalPaid := s.affiliates[id].totalPaid + amount)])
            else out == s
  {
  }

  /** A first look at a wallet creates an empty one, and an existing one stays. */
  lemma {:induction false} OpeningCreatesIff(s: Shop, u: int)
    ensures var out := Next(s, Opening(u));
            out == if u in s.books.balances then s else s.(books := s.books.(balances := s.books.balances[u := 0]))
  {
    assert s.(books := s.books) == s;
  }

  /** What the caller of a credit is told: the row it made, the row it had made before, or why not. */
  lemma {:induction false} CreditTells(b: Books, u: int, amount: int, reference: Reference)
    requires Agrees(b, u)
    ensures var (after, r) := Credit(b, u, amount, reference);
            var key := TxKey(u, reference, CREDIT);
            && (r.Done? ==> r.tx in after.txs && r.tx.key == key)
            && (r.Done? <==> 0 <= SumOf(b.txs, u) + amount <= 10_000_000)
            && (r == Refused(CapExceeded) <==> SumOf(b.txs, u) + amount > 10_000_000)
            && (r == Refused(CheckViolation) <==> SumOf(b.txs, u) + amount < 0)
  {
  }

  lemma {:induction false} DebitTells(b: Books, u: int, amount: int, reference: Reference)
    requires Agrees(b, u)
    ensures var (after, r) := Debit(b, u, amount, reference);
            var key := TxKey(u, reference, DEBIT);
            && (r.Done? ==> r.tx in after.txs && r.tx.key == key)
            && (r.Done? <==> u in b.balances && amount <= SumOf(b.txs, u))
            && (r == Refused(WalletNotFound) <==> u !in b.balances)
            && (r == Refused(InsufficientBalance) <==> u in b.balances && SumOf(b.txs, u) < amount)
  {
  }
}
