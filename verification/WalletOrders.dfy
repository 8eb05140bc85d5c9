/**
 What gifts, prizes and recharge orders do (wallet/service.go, wallet/rules.go), said in coins per account and order by
 order, without the functions that make up the operation.
*/
module WalletOrders {
  import opened Wrappers
  import opened Batches
  import opened Money
  import opened WalletLedger
  import opened WalletSpend
  import opened WalletOps
  import opened WalletRun
  import opened WalletEffects

  // Account `account` has `coins` more and every other account what it had.
  ghost predicate OnlyGains(before: Db, after: Db, account: nat, coins: int) {
    forall a: nat :: LotsOf(after.lots, a) == LotsOf(before.lots, a) + if a == account then coins else 0
  }

  lemma GrantOnlyGains(db: Db, account: nat, source: Source, amount: int, biz: Biz, ref: int, now: int)
    requires amount >= 0
    ensures OnlyGains(db, Grant(db, account, source, amount, biz, ref, now), account, amount)
  {
    forall a: nat {
      GrantMoves(db, account, source, amount, biz, ref, now, a);
    }
  }

  // ---------------------------------------------------------------- gifts and prizes

  ghost predicate WasGifted(db: Db, account: nat) {
    || (exists l :: l in db.lots && l.account == account && l.source == FromRegister)
    || (exists r :: r in db.ledger && r.account == account && r.biz == GrantRegister)
  }

  // A new account gets ten coins, once.
  lemma GiftMoves(db: Db, account: nat, now: int, later: int)
    ensures var gifted := RegisterGift(db, account, now);
            && OnlyGains(db, gifted, account, if WasGifted(db, account) then 0 else 10)
            && RegisterGift(gifted, account, later) == gifted
  {
    GiftedBefore(db, account);
    GrantOnlyGains(db, account, FromRegister, 10, GrantRegister, account, now);
    var gifted := RegisterGift(db, account, now);
    if !HasRegisterGift(db, account) {
      assert gifted.lots[|db.lots|].source == FromRegister;
    }
  }

  lemma GiftedBefore(db: Db, account: nat)
    ensures HasRegisterGift(db, account) <==> WasGifted(db, account)
  {
    if exists l :: l in db.lots && l.account == account && l.source == FromRegister {
      var l :| l in db.lots && l.account == account && l.source == FromRegister;
      var i :| 0 <= i < |db.lots| && db.lots[i] == l;
    }
    if exists r :: r in db.ledger && r.account == account && r.biz == GrantRegister {
      var r :| r in db.ledger && r.account == account && r.biz == GrantRegister;
      var j :| 0 <= j < |db.ledger| && db.ledger[j] == r;
    }
  }

  // Of a thousand neighbouring draws 95 win each prize up to ten coins and 5 each from 11 to 20.
  lemma CheckinOdds(draw: int, prize: int)
    ensures var n := draw % 1000;
            CheckinPrize(draw) == prize <==>
              || (1 <= prize <= 10 && 95 * (prize - 1) <= n < 95 * prize)
              || (11 <= prize <= 20 && 950 + 5 * (prize - 11) <= n < 950 + 5 * (prize - 10))
  {}

  // Of a hundred neighbouring draws 50 win nothing, 25 win 2 coins, 12 win 5, 8 win 10, 4 win 20 and one wins 50.
  lemma LotteryOdds(draw: int)
    ensures var n := draw % 100;
            match LotteryPrize(draw)
            case 0 => n < 50
            case 2 => 50 <= n < 50 + 25
            case 5 => 75 <= n < 75 + 12
            case 10 => 87 <= n < 87 + 8
            case 20 => 95 <= n < 95 + 4
            case 50 => n == 99
            case _ => false
  {}

  // Either prize is paid once a day, to the account that drew it.
  lemma CheckinMoves(db: Db, account: nat, draw: int, date: int, now: int)
    requires WellNumbered(db.lots)
    ensures var after := Step(db, OpCheckin(account, draw, date, now)); var claim := Daily(account, false, date);
            && after.daily == db.daily + {claim}
            && OnlyGains(db, after, account, if claim in db.daily then 0 else CheckinPrize(draw))
  {
    var claim := Daily(account, false, date);
    var db1 := db.(daily := db.daily + {claim});
    if claim in db.daily {
      assert db.daily + {claim} == db.daily;
    } else {
      GrantOnlyGains(db1, account, FromCheckin, CheckinPrize(draw), GrantCheckin, date, now);
    }
  }

  lemma LotteryMoves(db: Db, account: nat, draw: int, date: int, now: int)
    requires WellNumbered(db.lots)
    ensures var after := Step(db, OpLottery(account, draw, date, now)); var claim := Daily(account, true, date);
            && after.daily == db.daily + {claim}
            && OnlyGains(db, after, account, if claim in db.daily then 0 else LotteryPrize(draw))
  {
    var claim := Daily(account, true, date);
    var db1 := db.(daily := db.daily + {claim});
    if claim in db.daily {
      assert db.daily + {claim} == db.daily;
    } else {
      GrantOnlyGains(db1, account, FromLottery, LotteryPrize(draw), GrantLottery, date, now);
    }
  }

  // ---------------------------------------------------------------- credits

  // Ten coins per yuan, and a bonus on three amounts.
  function CoinsFor(yuan: int): int {
    10 * yuan + match yuan case 30 => 30 case 68 => 100 case 128 => 250 case _ => 0
  }

  lemma CreditMoves(db: Db, id: nat, totalAmount: string, now: int, db': Db)
    requires CreditPaid(db, id, totalAmount, now) == Ok(db') && db.orders[id - 1].status != Paid
    requires var o := db.orders[id - 1]; o.yuan >= 1 && o.coins == o.yuan * YUAN_TO_COINS && o.bonus == Bonus(o.yuan)
    ensures db'.orders == db.orders[id - 1 := db.orders[id - 1].(status := Paid)]
    ensures OnlyGains(db, db', db.orders[id - 1].account, CoinsFor(db.orders[id - 1].yuan))
  {
    var o := db.orders[id - 1];
    var db1 := db.(orders := db.orders[id - 1 := o.(status := Paid)]);
    var db2 := Grant(db1, o.account, FromRecharge, o.coins, GrantRecharge, id, now);
    GrantOnlyGains(db1, o.account, FromRecharge, o.coins, GrantRecharge, id, now);
    GrantOnlyGains(db2, o.account, FromRecharge, o.bonus, GrantRechargeBonus, id, now);
    forall a: nat ensures LotsOf(db'.lots, a) == LotsOf(db.lots, a) + if a == o.account then CoinsFor(o.yuan) else 0 {
      assert LotsOf(db1.lots, a) == LotsOf(db.lots, a);
      assert LotsOf(db2.lots, a) == LotsOf(db1.lots, a) + if a == o.account then o.coins else 0;
    }
  }

  // The text of a notification has to name the order's amount: it is credited only then.
  lemma CreditAnswers(db: Db, id: nat, totalAmount: string, now: int)
    ensures CreditPaid(db, id, totalAmount, now).Ok? <==>
              && YuanAmount(totalAmount).Some? && 0 < id <= |db.orders|
              && (db.orders[id - 1].status == Paid || YuanAmount(totalAmount) == Some(db.orders[id - 1].yuan))
  {}

  lemma WebhookAnswers(db: Db, id: nat, total: int, now: int)
    ensures CreditStripe(db, id, total, now) == Err(OrderNotFound) <==> !(0 < id <= |db.orders|)
    ensures CreditStripe(db, id, total, now) == Err(NotifyInvalid) <==>
              0 < id <= |db.orders| && total != 100 * db.orders[id - 1].yuan
    ensures 0 < id <= |db.orders| && total == 100 * db.orders[id - 1].yuan ==>
              CreditStripe(db, id, total, now).Ok?
              && CreditStripe(db, id, total, now) == CreditPaid(db, id, FormatYuan(db.orders[id - 1].yuan), now)
  {
    if 0 < id <= |db.orders| {
      ParseFormatted(db.orders[id - 1].yuan);
    }
  }

  ghost predicate PaysOrder(before: Db, after: Db, id: nat)
    requires 0 < id <= |before.orders|
  {
    var o := before.orders[id - 1];
    && after.orders == before.orders[id - 1 := o.(status := Paid)]
    && OnlyGains(before, after, o.account, CoinsFor(o.yuan))
  }

  // A gateway notification over exactly the order's amount, in cents, pays an unpaid order and brings its account the
  // coins; a wrong amount, an unknown order or a repetition changes nothing.
  lemma WebhookMoves(db: Db, id: nat, total: int, now: int)
    requires Inv(db) && WellNumbered(db.lots)
    ensures var after := Step(db, OpWebhook(id, total, now));
            if 0 < id <= |db.orders| && db.orders[id - 1].status != Paid && total == 100 * db.orders[id - 1].yuan
            then PaysOrder(db, after, id) else after == db
  {
    WebhookAnswers(db, id, total, now);
    if 0 < id <= |db.orders| && total == 100 * db.orders[id - 1].yuan {
      var o := db.orders[id - 1];
      if o.status != Paid {
        assert OrderBooked(db.ledger, o, id);
        CreditMoves(db, id, FormatYuan(o.yuan), now, CreditStripe(db, id, total, now).value);
      }
    }
  }

  // ---------------------------------------------------------------- orders

  ghost predicate IsClosing(before: seq<Order>, after: seq<Order>, ids: seq<nat>) {
    && |after| == |before|
    && forall i :: 0 <= i < |before| ==>
         after[i] == if i + 1 in ids then before[i].(status := Closed) else before[i]
  }

  // A recharge closes exactly the account's pending orders and adds one that is pending for half an hour.
  lemma RechargeMoves(db: Db, account: nat, yuan: int, now: int)
    requires WellNumbered(db.lots)
    ensures var after := Step(db, OpRecharge(account, yuan, now)); var n := |db.orders|;
            if yuan < 1 then after == db
            else
              && after == db.(orders := after.orders) && |after.orders| == n + 1
              && (forall i :: 0 <= i < n ==>
                    after.orders[i] == if db.orders[i].account == account && db.orders[i].status == Pending
                                       then db.orders[i].(status := Closed) else db.orders[i])
              && after.orders[n] == Order(account, yuan, 10 * yuan, CoinsFor(yuan) - 10 * yuan, Pending,
                                          now + 30 * 60 * 1_000_000_000)
  {
    if yuan >= 1 {
      var ids := SelectOrders(db.orders, PendingOfAccount(account));
      forall i | 0 <= i < |db.orders|
        ensures i + 1 in ids <==> db.orders[i].account == account && db.orders[i].status == Pending {
        assert i + 1 in ids ==> Picks(PendingOfAccount(account), db.orders[i]);
      }
    }
  }

  lemma {:induction false} SelectedAscend(orders: seq<Order>, q: OrderQuery)
    ensures Ascending(SelectOrders(orders, q))
  {
    if orders != [] {
      SelectedAscend(orders[..|orders| - 1], q);
    }
  }

  // The timer closes the first hundred overdue pending orders, oldest first, and nothing else.
  lemma OrderSweepMoves(db: Db, now: int) returns (due: seq<nat>)
    requires WellNumbered(db.lots)
    ensures Ascending(due)
    ensures forall i :: 0 <= i < |db.orders| ==>
              (i + 1 in due <==> db.orders[i].status == Pending && db.orders[i].expireAt <= now)
    ensures var after := Step(db, OpSweepOrders(now));
            && after == db.(orders := after.orders)
            && IsClosing(db.orders, after.orders, if |due| > 100 then due[..100] else due)
  {
    due := DueOrders(db.orders, now);
    ClosesAll(db.orders, if |due| > 100 then due[..100] else due);
  }

  lemma DueOrders(orders: seq<Order>, now: int) returns (due: seq<nat>)
    ensures due == SelectOrders(orders, DueAt(now)) && Ascending(due)
    ensures forall i :: 0 <= i < |orders| ==>
              (i + 1 in due <==> orders[i].status == Pending && orders[i].expireAt <= now)
  {
    due := SelectOrders(orders, DueAt(now));
    SelectedAscend(orders, DueAt(now));
    forall i | 0 <= i < |orders| ensures i + 1 in due <==> orders[i].status == Pending && orders[i].expireAt <= now {
      assert i + 1 in due ==> Picks(DueAt(now), orders[i]);
    }
  }

  lemma ClosesAll(orders: seq<Order>, ids: seq<nat>)
    ensures IsClosing(orders, CloseAll(orders, ids), ids)
  {}

  // Asking for an order: an owner's pending order is credited if the gateway has its exact amount, closed if it is unpaid
  // and overdue, and otherwise left alone.
  lemma QueryMoves(db: Db, account: nat, id: nat, answer: Gateway, now: int)
    requires WellNumbered(db.lots)
    ensures var after := Step(db, OpQuery(account, id, answer, now));
            if 0 < id <= |db.orders| && db.orders[id - 1].account == account && db.orders[id - 1].status == Pending
            then match answer
                 case NoAnswer => after == db
                 case Unpaid =>
                   after == (if now > db.orders[id - 1].expireAt
                             then db.(orders := db.orders[id - 1 := db.orders[id - 1].(status := Closed)]) else db)
                 case Settled(total) => after == Step(db, OpWebhook(id, total, now))
            else after == db
  {}

  lemma CloseMoves(db: Db, id: nat)
    requires WellNumbered(db.lots)
    ensures Step(db, OpClose(id)) ==
              if 0 < id <= |db.orders| && db.orders[id - 1].status == Pending
              then db.(orders := db.orders[id - 1 := db.orders[id - 1].(status := Closed)]) else db
  {}
}
