/** The event dispatcher: handlers of an event run in order, and a failure retries the whole job from the first one. The
    order cashback is credited by one of these handlers. */
module OrderEvents {
  import opened Schema
  import W = Wallet
  import R = WalletReplays
  import WS = WalletService

  /** The payload of order.placed, as far as the cashback handler reads it. */
  datatype OrderPlaced = OrderPlaced(orderId: int, userId: Option<int>, couponCode: Option<string>)

  /** One handler in one attempt: what the cashback handler's lookups yield (None if they throw or find nothing), or
      what another plugin does to the wallets and whether it throws in the end. */
  datatype Reaction = OrderCashback(cashback: Option<int>) | Plugin(steps: seq<W.Step>, throws: bool)

  predicate Throws(r: Reaction) {
    r.Plugin? && r.throws
  }

  /** handleOrderPlaced: errors inside it are logged and swallowed. */
  function CashbackSteps(e: OrderPlaced, cashback: Option<int>): seq<W.Step> {
    if e.userId.None? || e.couponCode.None? || e.couponCode.value == "" || cashback.None? || cashback.value <= 0 then []
    else [W.Crediting(e.userId.value, cashback.value, W.CashbackRef(e.orderId))]
  }

  function StepsOf(e: OrderPlaced, r: Reaction): seq<W.Step> {
    if r.OrderCashback? then CashbackSteps(e, r.cashback) else r.steps
  }

  /** The wallet steps of one attempt: the handlers up to and including the first that throws. */
  function AttemptSteps(e: OrderPlaced, reactions: seq<Reaction>): seq<W.Step> {
    if reactions == [] then []
    else if Throws(reactions[0]) then StepsOf(e, reactions[0])
    else StepsOf(e, reactions[0]) + AttemptSteps(e, reactions[1..])
  }

  /** The handlers before i have made the steps `done`, and none of them threw. */
  ghost predicate Reached(e: OrderPlaced, reactions: seq<Reaction>, i: nat, done: seq<W.Step>) {
    && i <= |reactions| && (forall k :: 0 <= k < i ==> !Throws(reactions[k]))
    && AttemptSteps(e, reactions) == done + AttemptSteps(e, reactions[i..])
  }

  lemma {:induction false} OneMoreHandler(e: OrderPlaced, reactions: seq<Reaction>, i: nat, done: seq<W.Step>)
    requires i < |reactions| && Reached(e, reactions, i, done)
    ensures if Throws(reactions[i]) then AttemptSteps(e, reactions) == done + StepsOf(e, reactions[i])
            else Reached(e, reactions, i + 1, done + StepsOf(e, reactions[i]))
  {
    assert reactions[i..][1..] == reactions[i + 1..];
  }

  /** EventBusProcessor.process for one attempt; false is the error that makes the queue retry. */
  method Process(db: WS.WalletDatabase, e: OrderPlaced, reactions: seq<Reaction>) returns (ok: bool)
    modifies db
    ensures db.Contents() == W.Run(old(db.Contents()), AttemptSteps(e, reactions))
    ensures ok <==> forall r :: r in reactions ==> !Throws(r)
  {
    ghost var saved, done := db.Contents(), [];
    var i := 0;
    while i < |reactions|
      invariant Reached(e, reactions, i, done) && db.Contents() == W.Run(saved, done)
    {
      var steps := StepsOf(e, reactions[i]);
      OneMoreHandler(e, reactions, i, done);
      RunSteps(db, steps);
      R.RunConcat(saved, done, steps);
      done := done + steps;
      if Throws(reactions[i]) {
        return false;
      }
      i := i + 1;
    }
    assert reactions[i..] == [] && AttemptSteps(e, reactions) == done;
    ok := true;
  }

  method RunSteps(db: WS.WalletDatabase, steps: seq<W.Step>)
    modifies db
    ensures db.Contents() == W.Run(old(db.Contents()), steps)
  {
    var k := 0;
    while k < |steps|
      invariant k <= |steps| && db.Contents() == W.Run(old(db.Contents()), steps[..k])
    {
      WS.Perform(db, steps[k]);
      assert steps[..k + 1][..k] == steps[..k];
      k := k + 1;
    }
    assert steps[..k] == steps;
  }

  // ---------- Every failure schedule ----------

  /** An attempt of the job, or a wallet step of somebody else. */
  datatype Happening = Attempt(reactions: seq<Reaction>) | Elsewhere(step: W.Step)

  function HappeningSteps(e: OrderPlaced, h: Happening): seq<W.Step> {
    if h.Attempt? then AttemptSteps(e, h.reactions) else [h.step]
  }

  function Flat(e: OrderPlaced, schedule: seq<Happening>): seq<W.Step> {
    if schedule == [] then []
    else Flat(e, schedule[..|schedule| - 1]) + HappeningSteps(e, schedule[|schedule| - 1])
  }

  function CashbackKey(e: OrderPlaced): W.TxKey
    requires e.userId.Some?
  {
    W.TxKey(e.userId.value, W.CashbackRef(e.orderId), W.CREDIT)
  }

  function Count(txs: seq<W.Tx>, key: W.TxKey): nat {
    if txs == [] then 0 else Count(txs[1..], key) + if txs[0].key == key then 1 else 0
  }

  lemma {:induction false} UniqueCount(txs: seq<W.Tx>, key: W.TxKey)
    requires W.UniqueKeys(txs)
    ensures Count(txs, key) == if W.FindTx(txs, key).Some? then 1 else 0
  {
    if txs != [] {
      UniqueCount(txs[1..], key);
      assert forall t :: t in txs[1..] ==> exists j :: 1 <= j < |txs| && txs[j] == t;
    }
  }

  /** Whichever handlers throw and however often the job is retried, the order's cashback is credited at most once. */
  lemma {:induction false} CashbackAtMostOnce(s: W.Shop, e: OrderPlaced, schedule: seq<Happening>)
    requires W.Sound(s) && e.userId.Some?
    ensures Count(W.Run(s, Flat(e, schedule)).books.txs, CashbackKey(e)) <= 1
    ensures R.Recorded(s, CashbackKey(e)) ==>
              W.FindTx(W.Run(s, Flat(e, schedule)).books.txs, CashbackKey(e)) == W.FindTx(s.books.txs, CashbackKey(e))
  {
    W.RunKeepsSound(s, Flat(e, schedule));
    UniqueCount(W.Run(s, Flat(e, schedule)).books.txs, CashbackKey(e));
    if R.Recorded(s, CashbackKey(e)) {
      R.RecordedForever(s, Flat(e, schedule), CashbackKey(e));
    }
  }

  lemma {:induction false} AttemptConcat(e: OrderPlaced, first: seq<Reaction>, second: seq<Reaction>)
    requires forall i :: 0 <= i < |first| ==> !Throws(first[i])
    ensures AttemptSteps(e, first + second) == AttemptSteps(e, first) + AttemptSteps(e, second)
  {
    if first == [] {
      assert first + second == second;
    } else {
      assert (first + second)[1..] == first[1..] + second;
      AttemptConcat(e, first[1..], second);
    }
  }

  /** The wallets when the cashback handler gets its turn in an attempt. */
  function AtTurn(s: W.Shop, e: OrderPlaced, before: seq<Reaction>): W.Shop {
    W.Run(s, AttemptSteps(e, before))
  }

  /** What the cashback handler may do with the wallets as they are: a coupon order of a user whose cashback is positive
      and new, and fits under the cap. */
  predicate Creditable(s: W.Shop, e: OrderPlaced, cashback: int)
    requires e.userId.Some?
  {
    && e.couponCode.Some? && |e.couponCode.value| > 0 && cashback > 0
    && W.FindTx(s.books.txs, CashbackKey(e)).None?
    && W.SumOf(s.books.txs, e.userId.value) + cashback <= 10_000_000
  }

  /** In an attempt that reaches it, the cashback handler credits exactly the cashback that it looked up, to the user
      who placed the order, exactly if that may be credited then. */
  lemma {:induction false} CashbackIsCreditedIff(s: W.Shop, e: OrderPlaced, before: seq<Reaction>, cashback: int)
    requires W.Sound(s) && e.userId.Some? && forall i :: 0 <= i < |before| ==> !Throws(before[i])
    requires W.FindTx(AtTurn(s, e, before).books.txs, CashbackKey(e)).None?
    ensures var mid := AtTurn(s, e, before);
            var credited := AtTurn(s, e, before + [OrderCashback(Some(cashback))]);
            var sum := W.SumOf(mid.books.txs, e.userId.value) + cashback;
            if Creditable(mid, e, cashback) then
              && W.Balance(credited.books, e.userId.value) == sum
              && W.FindTx(credited.books.txs, CashbackKey(e)) == Some(W.Tx(CashbackKey(e), cashback, sum))
            else credited == mid
  {
    var mid := AtTurn(s, e, before);
    W.RunKeepsSound(s, AttemptSteps(e, before));
    OneMoreTurn(s, e, before, OrderCashback(Some(cashback)));
    if Creditable(mid, e, cashback) {
      CashbackLands(mid, e, cashback);
    } else {
      CashbackStays(mid, e, cashback);
    }
  }

  lemma {:induction false} OneMoreTurn(s: W.Shop, e: OrderPlaced, before: seq<Reaction>, r: Reaction)
    requires !Throws(r) && forall i :: 0 <= i < |before| ==> !Throws(before[i])
    ensures AtTurn(s, e, before + [r]) == W.Run(AtTurn(s, e, before), StepsOf(e, r))
  {
    AttemptConcat(e, before, [r]);
    assert AttemptSteps(e, [r]) == StepsOf(e, r) + AttemptSteps(e, [r][1..]) == StepsOf(e, r);
    R.RunConcat(s, AttemptSteps(e, before), StepsOf(e, r));
  }

  /** The row outlives whatever the later handlers and attempts do. */
  lemma {:induction false} CashbackOutlives(s: W.Shop, e: OrderPlaced, reached: seq<Reaction>, after: seq<Reaction>,
                                            later: seq<Happening>)
    requires e.userId.Some? && forall i :: 0 <= i < |reached| ==> !Throws(reached[i])
    requires R.Recorded(AtTurn(s, e, reached), CashbackKey(e))
    ensures W.FindTx(W.Run(AtTurn(s, e, reached + after), Flat(e, later)).books.txs, CashbackKey(e))
         == W.FindTx(AtTurn(s, e, reached).books.txs, CashbackKey(e))
  {
    AttemptConcat(e, reached, after);
    R.RunConcat(s, AttemptSteps(e, reached), AttemptSteps(e, after));
    R.RecordedForever(AtTurn(s, e, reached), AttemptSteps(e, after), CashbackKey(e));
    R.RecordedForever(AtTurn(s, e, reached + after), Flat(e, later), CashbackKey(e));
  }

  lemma {:induction false} CashbackLands(s: W.Shop, e: OrderPlaced, cashback: int)
    requires W.Sound(s) && e.userId.Some? && Creditable(s, e, cashback)
    ensures var out := W.Run(s, CashbackSteps(e, Some(cashback)));
            var sum := W.SumOf(s.books.txs, e.userId.value) + cashback;
            && W.Balance(out.books, e.userId.value) == sum
            && W.FindTx(out.books.txs, CashbackKey(e)) == Some(W.Tx(CashbackKey(e), cashback, sum))
  {
    var u := e.userId.value;
    W.BalanceIsSum(s.books, u);
    var step := W.Crediting(u, cashback, W.CashbackRef(e.orderId));
    R.RunOneMore(s, [], step);
    assert [] + [step] == [step];
    var t := W.Tx(CashbackKey(e), cashback, W.SumOf(s.books.txs, u) + cashback);
    W.FoundStaysFound(s.books.txs, t, CashbackKey(e));
  }

  lemma {:induction false} CashbackStays(s: W.Shop, e: OrderPlaced, cashback: int)
    requires W.Sound(s) && e.userId.Some? && !Creditable(s, e, cashback)
    requires W.FindTx(s.books.txs, CashbackKey(e)).None?
    ensures W.Run(s, CashbackSteps(e, Some(cashback))) == s
  {
    var u := e.userId.value;
    W.BalanceIsSum(s.books, u);
    var step := W.Crediting(u, cashback, W.CashbackRef(e.orderId));
    R.RunOneMore(s, [], step);
    assert [] + [step] == [step];
    assert s.(books := s.books) == s;
  }

  /** The same schedule, with a cashback handler that does nothing. */
  function Muted(reactions: seq<Reaction>): (r: seq<Reaction>)
    ensures |r| == |reactions|
  {
    if reactions == [] then []
    else [if reactions[0].OrderCashback? then OrderCashback(None) else reactions[0]] + Muted(reactions[1..])
  }

  function MutedSchedule(schedule: seq<Happening>): (r: seq<Happening>)
    ensures |r| == |schedule|
  {
    if schedule == [] then []
    else
      var last := schedule[|schedule| - 1];
      MutedSchedule(schedule[..|schedule| - 1]) + [if last.Attempt? then Attempt(Muted(last.reactions)) else last]
  }

  lemma {:induction false} WithoutConcat(first: seq<W.Step>, second: seq<W.Step>, key: W.TxKey)
    ensures R.Without(first + second, key) == R.Without(first, key) + R.Without(second, key)
    decreases |second|
  {
    if second == [] {
      assert first + second == first;
    } else {
      var n := |second| - 1;
      WithoutConcat(first, second[..n], key);
      assert (first + second)[..|first + second| - 1] == first + second[..n];
    }
  }

  lemma {:induction false} MutedAttempt(e: OrderPlaced, reactions: seq<Reaction>)
    requires e.userId.Some?
    ensures R.Without(AttemptSteps(e, Muted(reactions)), CashbackKey(e))
         == R.Without(AttemptSteps(e, reactions), CashbackKey(e))
  {
    if reactions != [] {
      var key, muted := CashbackKey(e), Muted(reactions);
      assert muted[1..] == Muted(reactions[1..]);
      MutedAttempt(e, reactions[1..]);
      if reactions[0].OrderCashback? {
        MutedCashback(e, reactions[0].cashback);
      }
      WithoutConcat(StepsOf(e, reactions[0]), AttemptSteps(e, reactions[1..]), key);
      WithoutConcat(StepsOf(e, muted[0]), AttemptSteps(e, muted[1..]), key);
    }
  }

  lemma {:induction false} MutedCashback(e: OrderPlaced, cashback: Option<int>)
    requires e.userId.Some?
    ensures R.Without(CashbackSteps(e, cashback), CashbackKey(e)) == []
    ensures R.Without(CashbackSteps(e, None), CashbackKey(e)) == []
  {
    var steps := CashbackSteps(e, cashback);
    if steps != [] {
      assert steps[..0] == [];
      assert R.KeyOf(steps[0]) == Some(CashbackKey(e));
    }
  }

  lemma {:induction false} MutedFlat(e: OrderPlaced, schedule: seq<Happening>)
    requires e.userId.Some?
    ensures R.Without(Flat(e, MutedSchedule(schedule)), CashbackKey(e)) == R.Without(Flat(e, schedule), CashbackKey(e))
    decreases |schedule|
  {
    if schedule != [] {
      var key, n, muted := CashbackKey(e), |schedule| - 1, MutedSchedule(schedule);
      MutedFlat(e, schedule[..n]);
      assert muted[..n] == MutedSchedule(schedule[..n]);
      WithoutConcat(Flat(e, schedule[..n]), HappeningSteps(e, schedule[n]), key);
      WithoutConcat(Flat(e, muted[..n]), HappeningSteps(e, muted[n]), key);
      if schedule[n].Attempt? {
        MutedAttempt(e, schedule[n].reactions);
      }
    }
  }

  /** Once one attempt has credited the cashback, retries end as if the cashback handler were not there. */
  lemma {:induction false} RetriesCreditNothing(s: W.Shop, e: OrderPlaced, schedule: seq<Happening>)
    requires e.userId.Some? && R.Recorded(s, CashbackKey(e))
    ensures W.Run(s, Flat(e, schedule)) == W.Run(s, Flat(e, MutedSchedule(schedule)))
  {
    MutedFlat(e, schedule);
    R.ReplaysAreNoise(s, Flat(e, schedule), CashbackKey(e));
    R.ReplaysAreNoise(s, Flat(e, MutedSchedule(schedule)), CashbackKey(e));
  }

  /** A guest's order never credits anybody. */
  lemma {:induction false} GuestsGetNoCashback(e: OrderPlaced, reactions: seq<Reaction>)
    requires e.userId.None?
    ensures AttemptSteps(e, reactions) == AttemptSteps(e, Muted(reactions))
  {
    if reactions != [] {
      assert Muted(reactions)[1..] == Muted(reactions[1..]);
      GuestsGetNoCashback(e, reactions[1..]);
    }
  }
}
