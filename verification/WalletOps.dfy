/**
 The wallet operations (wallet/service.go, wallet/rules.go) as transactions on the tables: each either commits a
 new state or reports an error and leaves the tables alone.
*/
module WalletOps {
  import opened Wrappers
  import opened Recency
  import opened WalletLedger
  import opened WalletSpend
  import opened WalletSweep
  import opened Money

  datatype WalletError =
    | BadAmount | NotEnough | VideoNotTippable | TipSelf | TipTooFrequent | AlreadyClaimed
    | OrderNotFound | NotOwned | NotifyInvalid | CheckoutFailed

  const TIP_MIN_COINS := 10
  const CUT_PERCENT := 30
  const TIP_DEBOUNCE := 10_000_000_000
  const ORDER_TTL := 1_800_000_000_000
  const YUAN_TO_COINS := 10

  // ---------------------------------------------------------------- grants

  predicate HasRegisterGift(db: Db, account: nat) {
    || (exists i :: 0 <= i < |db.lots| && db.lots[i].account == account && db.lots[i].source == FromRegister)
    || (exists j :: 0 <= j < |db.ledger| && db.ledger[j].account == account && db.ledger[j].biz == GrantRegister)
  }

  function RegisterGift(db: Db, account: nat, now: int): Db {
    if HasRegisterGift(db, account) then db
    else Grant(db, account, FromRegister, REGISTER_GIFT_COINS, GrantRegister, account, now)
  }

  function ModRange(n: int, m: int): int {
    if m <= 0 then 0 else n % m
  }

  // drawCheckinPrize
  function CheckinPrize(n: int): (p: int)
    ensures 1 <= p <= 20
  {
    var k := ModRange(n, 1000);
    if k < 950 then k / 95 + 1 else (k - 950) / 5 + 11
  }

  // drawLottery
  function LotteryPrize(n: int): (p: int)
    ensures p >= 0
  {
    var k := ModRange(n, 100);
    if k < 50 then 0 else if k < 75 then 2 else if k < 87 then 5 else if k < 95 then 10 else if k < 99 then 20 else 50
  }

  function Checkin(db: Db, account: nat, draw: int, date: int, now: int): Result<Db, WalletError> {
    var claim := Daily(account, false, date);
    if claim in db.daily then Err(AlreadyClaimed)
    else
      Ok(Grant(db.(daily := db.daily + {claim}), account, FromCheckin, CheckinPrize(draw), GrantCheckin, date, now))
  }

  // An empty prize still leaves a zero row that belongs to no lot.
  function Lottery(db: Db, account: nat, draw: int, date: int, now: int): Result<Db, WalletError> {
    var claim := Daily(account, true, date);
    var prize := LotteryPrize(draw);
    if claim in db.daily then Err(AlreadyClaimed)
    else
      var db1 := db.(daily := db.daily + {claim});
      if prize == 0 then Ok(db1.(ledger := db1.ledger + [Row(account, 0, GrantLottery, 0, date)]))
      else Ok(Grant(db1, account, FromLottery, prize, GrantLottery, date, now))
  }

  // ---------------------------------------------------------------- tips

  datatype Video = Video(author: nat, listed: bool)

  function Received(coins: int): int {
    coins * (100 - CUT_PERCENT) / 100
  }

  function LastTip(tips: seq<Tip>, from: nat, video: nat): Option<Tip> {
    if tips == [] then None
    else
      var t := tips[|tips| - 1];
      if t.from == from && t.video == video then Some(t) else LastTip(tips[..|tips| - 1], from, video)
  }

  // What Tip writes once the checks have passed; the service reads its clock again for the spend and the grant.
  function BookTip(db: Db, from: nat, to: nat, video: nat, coins: int, now: int, spendAt: int, grantAt: int)
    : Result<Db, WalletError>
    requires WellNumbered(db.lots)
  {
    var id := |db.tips| + 1;
    var received, cut := Received(coins), coins - Received(coins);
    var db1 := db.(tips := db.tips + [Tip(from, to, video, coins, received, cut, now)]);
    match Spend(db1, from, coins, ConsumeTip, id, spendAt)
    case Err(InvalidAmount) => Err(BadAmount)
    case Err(Insufficient) => Err(NotEnough)
    case Ok(db2) =>
      var db3 := Grant(db2, to, FromTip, received, GrantTip, id, grantAt);
      Ok(if cut > 0 then db3.(platform := db3.platform + [PlatformEntry(cut, id)]) else db3)
  }

  function SendTip(db: Db, from: nat, video: Option<Video>, videoId: nat, coins: int, now: int, spendAt: int,
                   grantAt: int)
    : Result<Db, WalletError>
    requires WellNumbered(db.lots)
  {
    if coins < TIP_MIN_COINS then Err(BadAmount)
    else if video == None || !video.value.listed then Err(VideoNotTippable)
    else if video.value.author == from then Err(TipSelf)
    else
      var db1 := Sweep(db, Some(from), now);
      var last := LastTip(db1.tips, from, videoId);
      if last.Some? && now - last.value.createdAt < TIP_DEBOUNCE then Err(TipTooFrequent)
      else
        SweepNumbering(db, Some(from), now);
        BookTip(db1, from, video.value.author, videoId, coins, now, spendAt, grantAt)
  }

  lemma SweepNumbering(db: Db, scope: Option<nat>, now: int)
    requires WellNumbered(db.lots)
    ensures WellNumbered(Sweep(db, scope, now).lots)
  {
    SweepEffect(db, scope, now);
  }

  // ---------------------------------------------------------------- recharge orders

  function Bonus(yuan: int): int {
    if yuan == 30 then 30 else if yuan == 68 then 100 else if yuan == 128 then 250 else 0
  }

  // Orders are named by their position: order id n is element n-1.
  predicate OrderExists(db: Db, id: nat) {
    0 < id <= |db.orders|
  }

  // pendingOrders and duePendingOrders: the ids a query on pending orders returns, ascending.
  datatype OrderQuery = PendingOfAccount(account: nat) | DueAt(now: int)

  predicate Picks(q: OrderQuery, o: Order) {
    o.status == Pending && match q case PendingOfAccount(a) => o.account == a case DueAt(now) => o.expireAt <= now
  }

  function SelectOrders(orders: seq<Order>, q: OrderQuery): (ids: seq<nat>)
    ensures forall k :: 0 <= k < |ids| ==> 0 < ids[k] <= |orders| && Picks(q, orders[ids[k] - 1])
    ensures forall i :: 0 <= i < |orders| && Picks(q, orders[i]) ==> i + 1 in ids
  {
    if orders == [] then []
    else
      var n := |orders| - 1;
      var r := SelectOrders(orders[..n], q);
      assert forall k :: 0 <= k < |r| ==> orders[..n][r[k] - 1] == orders[r[k] - 1];
      assert forall i :: 0 <= i < n ==> orders[..n][i] == orders[i];
      if Picks(q, orders[n]) then r + [n + 1] else r
  }

  function CloseAll(orders: seq<Order>, ids: seq<nat>): seq<Order> {
    seq(|orders|, i requires 0 <= i < |orders| => if i + 1 in ids then orders[i].(status := Closed) else orders[i])
  }

  function NewOrder(account: nat, yuan: int, now: int): Order {
    Order(account, yuan, yuan * YUAN_TO_COINS, Bonus(yuan), Pending, now + ORDER_TTL)
  }

  // Close the account's pending orders and insert the new one, in one transaction.
  function CreateRecharge(db: Db, account: nat, yuan: int, now: int): (Db, Result<nat, WalletError>) {
    if yuan < 1 then (db, Err(BadAmount))
    else
      var closed := CloseAll(db.orders, SelectOrders(db.orders, PendingOfAccount(account)));
      (db.(orders := closed + [NewOrder(account, yuan, now)]), Ok(|db.orders| + 1))
  }

  // If the checkout session cannot be created or saved, the order is closed again later, without looking at it.
  function FailCheckout(db: Db, id: nat): Db
    requires OrderExists(db, id)
  {
    db.(orders := db.orders[id - 1 := db.orders[id - 1].(status := Closed)])
  }

  // A session that was never handed out was not paid.
  predicate CheckoutCanFail(db: Db, id: nat) {
    OrderExists(db, id) && db.orders[id - 1].status != Paid
  }

  function CreditPaid(db: Db, id: nat, totalAmount: string, now: int): Result<Db, WalletError> {
    var yuan := YuanAmount(totalAmount);
    if yuan == None then Err(BadAmount)
    else if !OrderExists(db, id) then Err(OrderNotFound)
    else
      var order := db.orders[id - 1];
      if order.status == Paid then Ok(db)
      else if order.yuan != yuan.value then Err(NotifyInvalid)
      else
        var db1 := db.(orders := db.orders[id - 1 := order.(status := Paid)]);
        var db2 := Grant(db1, order.account, FromRecharge, order.coins, GrantRecharge, id, now);
        Ok(Grant(db2, order.account, FromRecharge, order.bonus, GrantRechargeBonus, id, now))
  }

  function CreditStripe(db: Db, id: nat, amountTotal: int, now: int): Result<Db, WalletError> {
    if !OrderExists(db, id) then Err(OrderNotFound)
    else if amountTotal != db.orders[id - 1].yuan * 100 then Err(NotifyInvalid)
    else CreditPaid(db, id, FormatYuan(db.orders[id - 1].yuan), now)
  }

  function CloseOrder(db: Db, id: nat): Db {
    if !OrderExists(db, id) || db.orders[id - 1].status != Pending then db
    else db.(orders := db.orders[id - 1 := db.orders[id - 1].(status := Closed)])
  }

  // What the payment gateway answers about an order's session.
  datatype Gateway = NoAnswer | Unpaid | Settled(amountTotal: int)

  function QueryOrder(db: Db, account: nat, id: nat, answer: Gateway, now: int): Result<Db, WalletError> {
    if !OrderExists(db, id) then Err(OrderNotFound)
    else if db.orders[id - 1].account != account then Err(NotOwned)
    else if db.orders[id - 1].status != Pending then Ok(db)
    else
      match answer
      case NoAnswer => Ok(db)
      case Settled(total) =>
        // a failed credit is logged and the order is returned as it was
        (match CreditStripe(db, id, total, now) case Ok(r) => Ok(r) case Err(_) => Ok(db))
      case Unpaid => Ok(if now > db.orders[id - 1].expireAt then CloseOrder(db, id) else db)
  }

  const ORDER_BATCH := 100

  function SweepOrders(db: Db, now: int): Db {
    db.(orders := CloseAll(db.orders, FirstN(SelectOrders(db.orders, DueAt(now)), ORDER_BATCH)))
  }

  // ---------------------------------------------------------------- runs

  datatype Op =
    | OpRegister(account: nat, now: int)
    | OpCheckin(account: nat, draw: int, date: int, now: int)
    | OpLottery(account: nat, draw: int, date: int, now: int)
    | OpTip(from: nat, video: Option<Video>, videoId: nat, coins: int, now: int, spendAt: int, grantAt: int)
    | OpSummary(account: nat, now: int)
    | OpSweepLots(now: int)
    | OpRecharge(account: nat, yuan: int, now: int)
    | OpFailCheckout(id: nat)
    | OpWebhook(id: nat, amountTotal: int, now: int)
    | OpQuery(account: nat, id: nat, answer: Gateway, now: int)
    | OpClose(id: nat)
    | OpSweepOrders(now: int)

  function Settle(db: Db, r: Result<Db, WalletError>): Db {
    match r case Ok(db') => db' case Err(_) => db
  }

  function Step(db: Db, op: Op): Db
    requires WellNumbered(db.lots)
  {
    match op
    case OpRegister(a, now) => RegisterGift(db, a, now)
    case OpCheckin(a, draw, date, now) => Settle(db, Checkin(db, a, draw, date, now))
    case OpLottery(a, draw, date, now) => Settle(db, Lottery(db, a, draw, date, now))
    case OpTip(from, video, v, coins, now, spendAt, grantAt) =>
      Settle(db, SendTip(db, from, video, v, coins, now, spendAt, grantAt))
    case OpSummary(a, now) => Sweep(db, Some(a), now)
    case OpSweepLots(now) => Sweep(db, None, now)
    case OpRecharge(a, yuan, now) => CreateRecharge(db, a, yuan, now).0
    case OpFailCheckout(id) => if CheckoutCanFail(db, id) then FailCheckout(db, id) else db
    case OpWebhook(id, total, now) => Settle(db, CreditStripe(db, id, total, now))
    case OpQuery(a, id, answer, now) => Settle(db, QueryOrder(db, a, id, answer, now))
    case OpClose(id) => CloseOrder(db, id)
    case OpSweepOrders(now) => SweepOrders(db, now)
  }
}
