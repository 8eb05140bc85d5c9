/** The wallet service as it runs: methods that update the tables in place, each proved equal to its transaction. */
module WalletService {
  import opened Wrappers
  import opened Recency
  import opened WalletLedger
  import opened WalletSpend
  import opened WalletSweep
  import opened WalletOps
  import opened Money

  const LOT_BATCH := 100

  class Service {
    var lots: seq<Lot>
    var ledger: seq<Row>
    var platform: seq<PlatformEntry>
    var tips: seq<Tip>
    var orders: seq<Order>
    var daily: set<Daily>

    function State(): Db
      reads this
    {
      Db(lots, ledger, platform, tips, orders, daily)
    }

    constructor ()
      ensures State() == EMPTY_DB
    {
      lots, ledger, platform, tips, orders, daily := [], [], [], [], [], {};
    }

    // A failed transaction puts every table back.
    method Rollback(db: Db)
      modifies this
      ensures State() == db
    {
      lots, ledger, platform, tips, orders, daily := db.lots, db.ledger, db.platform, db.tips, db.orders, db.daily;
    }

    method GrantInTx(account: nat, source: Source, amount: int, biz: Biz, ref: int, now: int)
      modifies this
      ensures State() == Grant(old(State()), account, source, amount, biz, ref, now)
    {
      if amount <= 0 {
        return;
      }
      var lot := Lot(|lots| + 1, account, source, amount, ExpireFor(source, now), now);
      lots := lots + [lot];
      ledger := ledger + [Row(account, lot.id, biz, amount, ref)];
    }

    method TakeInTx(id: nat, take: int, biz: Biz, ref: int)
      requires 0 < id <= |lots|
      modifies this
      ensures State() == Take(old(State()), id, take, biz, ref)
    {
      var lot := lots[id - 1];
      lots := lots[id - 1 := lot.(remaining := lot.remaining - take)];
      ledger := ledger + [Row(lot.account, id, biz, -take, ref)];
    }

    method SpendInTx(account: nat, amount: int, biz: Biz, ref: int, now: int) returns (r: Option<SpendError>)
      requires WellNumbered(lots)
      modifies this
      ensures match Spend(old(State()), account, amount, biz, ref, now)
              case Ok(db) => r == None && State() == db
              case Err(e) => r == Some(e) && State() == old(State())
    {
      if amount <= 0 {
        return Some(InvalidAmount);
      }
      var rows := AvailableLots(lots, account, now);
      AvailableIsSnapshot(lots, account, now);
      var total := 0;
      for i := 0 to |rows|
        invariant total + Remaining(rows[i..]) == Remaining(rows)
        invariant State() == old(State())
      {
        assert rows[i..][1..] == rows[i + 1..];
        total := total + rows[i].remaining;
      }
      if total < amount {
        return Some(Insufficient);
      }
      DrainRows(rows, amount, biz, ref);
      r := None;
    }

    method DrainLot(lot: Lot, left: int, biz: Biz, ref: int) returns (take: int)
      requires 0 < lot.id <= |lots|
      modifies this
      ensures take == TakeOf(lot, left) && State() == Take(old(State()), lot.id, take, biz, ref)
    {
      take := lot.remaining;
      if take > left {
        take := left;
      }
      TakeInTx(lot.id, take, biz, ref);
    }

    method DrainRows(rows: seq<Lot>, amount: int, biz: Biz, ref: int)
      requires Snapshot(lots, rows)
      modifies this
      ensures State() == SpendFrom(old(State()), rows, amount, biz, ref)
    {
      ghost var target := SpendFrom(State(), rows, amount, biz, ref);
      var left := amount;
      var i := 0;
      ghost var rest := rows;
      while i < |rows| && left != 0
        invariant 0 <= i <= |rows| && rest == rows[i..] && Snapshot(lots, rest)
        invariant SpendFrom(State(), rest, left, biz, ref) == target
      {
        DrainStep(State(), rest, left, biz, ref);
        var take := DrainLot(rows[i], left, biz, ref);
        left := left - take;
        i := i + 1;
        rest := rest[1..];
      }
    }

    method ExpireLotInTx(id: nat)
      requires 0 < id <= |lots|
      modifies this
      ensures State() == ExpireLot(old(State()), id)
    {
      if lots[id - 1].remaining <= 0 {
        return;
      }
      TakeInTx(id, lots[id - 1].remaining, Expire, id);
    }

    method ExpireAll(ids: seq<nat>)
      requires ValidIds(ids, |lots|)
      modifies this
      ensures State() == ExpireIds(old(State()), ids)
    {
      ghost var target := ExpireIds(State(), ids);
      assert ids[0..] == ids;
      for i := 0 to |ids|
        invariant ValidIds(ids[i..], |lots|)
        invariant ExpireIds(State(), ids[i..]) == target
      {
        assert ids[i..][1..] == ids[i + 1..];
        assert ids[i..][0] == ids[i];
        ExpireLotInTx(ids[i]);
      }
    }

    method ExpireAccountTx(account: nat, now: int)
      modifies this
      ensures State() == Sweep(old(State()), Some(account), now)
    {
      var ids := DueIds(lots, Some(account), now);
      DueIdsValid(lots, Some(account), now);
      ExpireAll(ids);
    }

    // Batches of at most a hundred until a batch is empty; each non-empty batch lowers the number of due lots.
    method SweepExpired(now: int)
      modifies this
      ensures State() == Sweep(old(State()), None, now)
      ensures forall i :: 0 <= i < |lots| ==> !Due(lots[i], None, now)
    {
      ghost var target := Sweep(State(), None, now);
      SweepLeavesNoneDue(State(), None, now);
      while true
        invariant Sweep(State(), None, now) == target
        decreases |DueIds(lots, None, now)|
      {
        var batch := FirstN(DueIds(lots, None, now), LOT_BATCH);
        DueIdsValid(lots, None, now);
        BatchLeavesRest(State(), None, now, |batch|);
        assert batch == DueIds(lots, None, now)[..|batch|];
        ExpireAll(batch);
        if |batch| == 0 {
          break;
        }
      }
    }

    method TipInTx(from: nat, to: nat, videoId: nat, coins: int, now: int, spendAt: int, grantAt: int)
      returns (r: Option<WalletError>)
      requires WellNumbered(lots)
      modifies this
      ensures match BookTip(old(State()), from, to, videoId, coins, now, spendAt, grantAt)
              case Ok(db) => r == None && State() == db
              case Err(e) => r == Some(e)
    {
      var received := Received(coins);
      var cut := coins - received;
      tips := tips + [Tip(from, to, videoId, coins, received, cut, now)];
      var id := |tips|;
      var failed := SpendInTx(from, coins, ConsumeTip, id, spendAt);
      if failed.Some? {
        return Some(if failed.value == InvalidAmount then BadAmount else NotEnough);
      }
      if received > 0 {
        GrantInTx(to, FromTip, received, GrantTip, id, grantAt);
      }
      if cut > 0 {
        platform := platform + [PlatformEntry(cut, id)];
      }
      r := None;
    }

    method Send(from: nat, video: Option<Video>, videoId: nat, coins: int, now: int, spendAt: int, grantAt: int)
      returns (r: Option<WalletError>)
      requires WellNumbered(lots)
      modifies this
      ensures match SendTip(old(State()), from, video, videoId, coins, now, spendAt, grantAt)
              case Ok(db) => r == None && State() == db
              case Err(e) => r == Some(e) && State() == old(State())
    {
      if coins < TIP_MIN_COINS {
        return Some(BadAmount);
      }
      if video == None || !video.value.listed {
        return Some(VideoNotTippable);
      }
      if video.value.author == from {
        return Some(TipSelf);
      }
      var saved := State();
      ExpireAccountTx(from, now);
      SweepNumbering(saved, Some(from), now);
      var last := LastTip(tips, from, videoId);
      if last.Some? && now - last.value.createdAt < TIP_DEBOUNCE {
        Rollback(saved);
        return Some(TipTooFrequent);
      }
      r := TipInTx(from, video.value.author, videoId, coins, now, spendAt, grantAt);
      if r.Some? {
        Rollback(saved);
      }
    }

    method CloseOrders(ids: seq<nat>)
      requires forall k :: 0 <= k < |ids| ==> 0 < ids[k] <= |orders|
      modifies this`orders
      ensures orders == CloseAll(old(orders), ids)
    {
      for i := 0 to |ids|
        invariant orders == CloseAll(old(orders), ids[..i])
      {
        var id := ids[i];
        assert ids[..i + 1] == ids[..i] + [id];
        orders := orders[id - 1 := orders[id - 1].(status := Closed)];
      }
      assert ids[..|ids|] == ids;
    }

    // The transaction.
    method InsertOrder(account: nat, yuan: int, now: int) returns (r: Result<nat, WalletError>)
      modifies this`orders
      ensures (State(), r) == CreateRecharge(old(State()), account, yuan, now)
    {
      if yuan < 1 {
        return Err(BadAmount);
      }
      var order := Order(account, yuan, yuan * YUAN_TO_COINS, Bonus(yuan), Pending, now + ORDER_TTL);
      var pending := SelectOrders(orders, PendingOfAccount(account));
      CloseOrders(pending);
      orders := orders + [order];
      r := Ok(|orders|);
    }

    method CloseFailed(id: nat)
      requires OrderExists(State(), id)
      modifies this`orders
      ensures State() == FailCheckout(old(State()), id)
    {
      orders := orders[id - 1 := orders[id - 1].(status := Closed)];
    }

    // The whole call when nobody interferes between the transaction and the close.
    method NewRecharge(account: nat, yuan: int, now: int, checkout: bool) returns (r: Result<nat, WalletError>)
      modifies this`orders
      ensures var (db, created) := CreateRecharge(old(State()), account, yuan, now);
              if created.Err? || checkout then State() == db && r == created
              else CheckoutCanFail(db, created.value)
                   && State() == FailCheckout(db, created.value) && r == Err(CheckoutFailed)
    {
      r := InsertOrder(account, yuan, now);
      if r.Ok? && !checkout {
        CloseFailed(r.value);
        r := Err(CheckoutFailed);
      }
    }

    method Credit(id: nat, totalAmount: string, now: int) returns (r: Option<WalletError>)
      modifies this
      ensures match CreditPaid(old(State()), id, totalAmount, now)
              case Ok(db) => r == None && State() == db
              case Err(e) => r == Some(e) && State() == old(State())
    {
      var yuan := ParseYuanAmount(totalAmount);
      if yuan == None {
        return Some(BadAmount);
      }
      if !OrderExists(State(), id) {
        return Some(OrderNotFound);
      }
      var order := orders[id - 1];
      if order.status == Paid {
        return None;
      }
      if order.yuan != yuan.value {
        return Some(NotifyInvalid);
      }
      orders := orders[id - 1 := order.(status := Paid)];
      GrantInTx(order.account, FromRecharge, order.coins, GrantRecharge, id, now);
      if order.bonus > 0 {
        GrantInTx(order.account, FromRecharge, order.bonus, GrantRechargeBonus, id, now);
      }
      r := None;
    }

    method Close(id: nat)
      modifies this
      ensures State() == CloseOrder(old(State()), id)
    {
      if !OrderExists(State(), id) || orders[id - 1].status != Pending {
        return;
      }
      orders := orders[id - 1 := orders[id - 1].(status := Closed)];
    }

    method SweepExpiredOrders(now: int)
      modifies this
      ensures State() == SweepOrders(old(State()), now)
    {
      var due := FirstN(SelectOrders(orders, DueAt(now)), ORDER_BATCH);
      CloseOrders(due);
    }
  }
}
