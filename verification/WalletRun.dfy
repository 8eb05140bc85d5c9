/**
 What every run of the wallet keeps: the books balance, tips create and destroy nothing, and an order is paid
 exactly when its coins were granted.
*/
module WalletRun {
  import opened Wrappers
  import opened Recency
  import opened WalletLedger
  import opened WalletSpend
  import opened WalletSweep
  import opened WalletOps
  import opened Money

  function PlatformOf(entries: seq<PlatformEntry>, tip: nat): int {
    if entries == [] then 0
    else
      PlatformOf(entries[..|entries| - 1], tip)
      + if entries[|entries| - 1].tip == tip then entries[|entries| - 1].amount else 0
  }

  // The sender lost the tip, and the author and the platform together gained exactly that.
  ghost predicate TipBooked(ledger: seq<Row>, platform: seq<PlatformEntry>, t: Tip, id: nat) {
    && Sum(ledger, OfRef(ConsumeTip, id)) == -t.coins
    && Sum(ledger, OfRef(GrantTip, id)) == t.received
    && PlatformOf(platform, id) == t.cut
    && IsFair(t)
  }

  // A tip reaches the minimum and goes to somebody else; the author gets 70% of it, rounded down, and the platform the
  // rest.
  ghost predicate IsFair(t: Tip) {
    && t.coins >= 10 && t.from != t.to
    && 100 * t.received <= 70 * t.coins < 100 * (t.received + 1)
    && t.received + t.cut == t.coins
  }

  // Paid exactly when the ledger grants the coins once, with one bonus row iff there is a bonus.
  ghost predicate OrderBooked(ledger: seq<Row>, o: Order, id: nat) {
    var coins, bonus := OfRef(GrantRecharge, id), OfRef(GrantRechargeBonus, id);
    && o.yuan >= 1 && o.coins == o.yuan * YUAN_TO_COINS && o.bonus == Bonus(o.yuan)
    && Count(ledger, coins) == (if o.status == Paid then 1 else 0)
    && Sum(ledger, coins) == (if o.status == Paid then o.coins else 0)
    && Count(ledger, bonus) == (if o.status == Paid && o.bonus > 0 then 1 else 0)
    && Sum(ledger, bonus) == (if o.status == Paid then o.bonus else 0)
  }

  // A row names a tip, order or account that exists, and stands on the account that pays or gets the coins.
  ghost predicate RowKnown(db: Db, r: Row) {
    match r.biz
    case ConsumeTip => 0 < r.ref <= |db.tips| && r.account == db.tips[r.ref - 1].from
    case GrantTip => 0 < r.ref <= |db.tips| && r.account == db.tips[r.ref - 1].to
    case GrantRecharge | GrantRechargeBonus =>
      0 < r.ref <= |db.orders| && r.account == db.orders[r.ref - 1].account
    case GrantRegister => r.ref == r.account
    case _ => true
  }

  ghost predicate OnePending(orders: seq<Order>) {
    forall i, j :: 0 <= i < j < |orders| && orders[i].status == Pending && orders[j].status == Pending
      ==> orders[i].account != orders[j].account
  }

  ghost predicate RefsKnown(db: Db) {
    && (forall j :: 0 <= j < |db.ledger| ==> RowKnown(db, db.ledger[j]))
    && (forall j :: 0 <= j < |db.platform| ==> 0 < db.platform[j].tip <= |db.tips|)
  }

  ghost predicate TipsBooked(db: Db) {
    forall i :: 0 <= i < |db.tips| ==> TipBooked(db.ledger, db.platform, db.tips[i], i + 1)
  }

  ghost predicate OrdersBooked(db: Db) {
    forall i :: 0 <= i < |db.orders| ==> OrderBooked(db.ledger, db.orders[i], i + 1)
  }

  ghost predicate GiftedOnce(db: Db) {
    forall a: nat :: Count(db.ledger, OfRef(GrantRegister, a)) <= 1
  }

  ghost predicate Inv(db: Db) {
    && Balanced(db) && Drift(db) == 0
    && RefsKnown(db) && TipsBooked(db) && OrdersBooked(db) && OnePending(db.orders) && GiftedOnce(db)
  }

  // ---------------------------------------------------------------- framing

  ghost predicate Silent(rows: seq<Row>, b: Biz, ref: int) {
    forall j :: 0 <= j < |rows| ==> rows[j].biz != b || rows[j].ref != ref
  }

  lemma SilentRows(ledger: seq<Row>, rows: seq<Row>, b: Biz, ref: int)
    requires Silent(rows, b, ref)
    ensures Sum(ledger + rows, OfRef(b, ref)) == Sum(ledger, OfRef(b, ref))
    ensures Count(ledger + rows, OfRef(b, ref)) == Count(ledger, OfRef(b, ref))
  {
    SumConcat(ledger, rows, OfRef(b, ref));
    NoMatches(rows, OfRef(b, ref));
  }

  lemma KeepTipsBooked(db: Db, db': Db, rows: seq<Row>)
    requires TipsBooked(db) && db'.ledger == db.ledger + rows && db'.platform == db.platform && db'.tips == db.tips
    requires forall j :: 0 <= j < |rows| ==> !rows[j].biz.ConsumeTip? && !rows[j].biz.GrantTip?
    ensures TipsBooked(db')
  {
    forall i | 0 <= i < |db.tips| ensures TipBooked(db'.ledger, db'.platform, db'.tips[i], i + 1) {
      assert TipBooked(db.ledger, db.platform, db.tips[i], i + 1);
      SilentRows(db.ledger, rows, ConsumeTip, i + 1);
      SilentRows(db.ledger, rows, GrantTip, i + 1);
    }
  }

  lemma KeepOrdersBooked(db: Db, db': Db, rows: seq<Row>)
    requires OrdersBooked(db) && db'.ledger == db.ledger + rows && db'.orders == db.orders
    requires forall j :: 0 <= j < |rows| ==> !rows[j].biz.GrantRecharge? && !rows[j].biz.GrantRechargeBonus?
    ensures OrdersBooked(db')
  {
    forall i | 0 <= i < |db.orders| ensures OrderBooked(db'.ledger, db'.orders[i], i + 1) {
      assert OrderBooked(db.ledger, db.orders[i], i + 1);
      SilentRows(db.ledger, rows, GrantRecharge, i + 1);
      SilentRows(db.ledger, rows, GrantRechargeBonus, i + 1);
    }
  }

  lemma KeepGifts(db: Db, db': Db, rows: seq<Row>)
    requires GiftedOnce(db) && db'.ledger == db.ledger + rows
    requires forall j :: 0 <= j < |rows| ==> !rows[j].biz.GrantRegister?
    ensures GiftedOnce(db')
  {
    forall a: nat ensures Count(db'.ledger, OfRef(GrantRegister, a)) <= 1 {
      assert Count(db.ledger, OfRef(GrantRegister, a)) <= 1;
      SilentRows(db.ledger, rows, GrantRegister, a);
    }
  }

  lemma KeepRefs(db: Db, db': Db, rows: seq<Row>)
    requires RefsKnown(db) && db'.ledger == db.ledger + rows && db'.platform == db.platform
    requires db.tips <= db'.tips && |db.orders| <= |db'.orders|
    requires forall i :: 0 <= i < |db.orders| ==> db'.orders[i].account == db.orders[i].account
    requires forall j :: 0 <= j < |rows| ==> RowKnown(db', rows[j])
    ensures RefsKnown(db')
  {
    forall j | 0 <= j < |db'.ledger| ensures RowKnown(db', db'.ledger[j]) {
      if j < |db.ledger| {
        assert RowKnown(db, db.ledger[j]);
      } else {
        assert db'.ledger[j] == rows[j - |db.ledger|];
      }
    }
  }

  // Writes that touch neither tips nor orders nor gifts.
  ghost predicate Quiet(r: Row) {
    r.biz.Expire? || r.biz.GrantCheckin? || r.biz.GrantLottery?
  }

  lemma QuietKeepsInv(db: Db, db': Db, rows: seq<Row>)
    requires Inv(db) && Balanced(db') && Drift(db') == 0
    requires db'.ledger == db.ledger + rows && db'.platform == db.platform && db'.tips == db.tips
    requires db'.orders == db.orders
    requires forall j :: 0 <= j < |rows| ==> Quiet(rows[j])
    ensures Inv(db')
  {
    KeepTipsBooked(db, db', rows);
    KeepOrdersBooked(db, db', rows);
    KeepGifts(db, db', rows);
    KeepRefs(db, db', rows);
  }

  // ---------------------------------------------------------------- sweeps, check-in, lottery, gift

  lemma SweepKeepsInv(db: Db, scope: Option<nat>, now: int)
    requires Inv(db)
    ensures Inv(Sweep(db, scope, now))
  {
    var rows := SweepKeepsBooks(db, scope, now);
    QuietKeepsInv(db, Sweep(db, scope, now), rows);
  }

  lemma QuietGrantKeepsInv(db: Db, account: nat, source: Source, amount: int, biz: Biz, ref: int, now: int)
    requires Inv(db) && biz in {GrantCheckin, GrantLottery} && amount > 0
    ensures Inv(Grant(db, account, source, amount, biz, ref, now))
  {
    GrantKeepsBalance(db, account, source, amount, biz, ref, now);
    GrantDrift(db, account, source, amount, biz, ref, now);
    QuietKeepsInv(db, Grant(db, account, source, amount, biz, ref, now),
                  [Row(account, |db.lots| + 1, biz, amount, ref)]);
  }

  lemma DailyIsOutsideTheBooks(db: Db, daily: set<Daily>)
    requires Inv(db)
    ensures Inv(db.(daily := daily))
  {
    var db' := db.(daily := daily);
    assert forall i :: 0 <= i < |db.lots| ==> (LotBalances(db', i) <==> LotBalances(db, i));
    assert forall a :: AccountBalances(db', a) <==> AccountBalances(db, a);
    assert db.ledger + [] == db.ledger;
    QuietKeepsInv(db, db', []);
  }

  lemma EmptyRowBalances(db: Db, row: Row)
    requires Balanced(db) && row.lot == 0 && row.amount == 0
    ensures Balanced(db.(ledger := db.ledger + [row])) && Drift(db.(ledger := db.ledger + [row])) == Drift(db)
  {
    var db' := db.(ledger := db.ledger + [row]);
    PostAll(db.ledger, row);
    forall i | 0 <= i < |db.lots| ensures LotBalances(db', i) {
      assert LotBalances(db, i);
    }
    forall a ensures AccountBalances(db', a) {
      assert AccountBalances(db, a);
    }
  }

  lemma EmptyPrizeKeepsInv(db: Db, account: nat, date: int)
    requires Inv(db)
    ensures Inv(db.(ledger := db.ledger + [Row(account, 0, GrantLottery, 0, date)]))
  {
    var row := Row(account, 0, GrantLottery, 0, date);
    var db' := db.(ledger := db.ledger + [row]);
    EmptyRowBalances(db, row);
    QuietKeepsInv(db, db', [row]);
  }

  lemma GiftKeepsInv(db: Db, account: nat, now: int)
    requires Inv(db)
    ensures Inv(RegisterGift(db, account, now))
  {
    if !HasRegisterGift(db, account) {
      var db' := RegisterGift(db, account, now);
      var row := Row(account, |db.lots| + 1, GrantRegister, REGISTER_GIFT_COINS, account);
      GrantKeepsBalance(db, account, FromRegister, REGISTER_GIFT_COINS, GrantRegister, account, now);
      GrantDrift(db, account, FromRegister, REGISTER_GIFT_COINS, GrantRegister, account, now);
      KeepTipsBooked(db, db', [row]);
      KeepOrdersBooked(db, db', [row]);
      KeepRefs(db, db', [row]);
      NoMatchesForGift(db, account);
      forall a: nat ensures Count(db'.ledger, OfRef(GrantRegister, a)) <= 1 {
        assert Count(db.ledger, OfRef(GrantRegister, a)) <= 1;
        Post(db.ledger, row, OfRef(GrantRegister, a));
      }
    }
  }

  lemma NoMatchesForGift(db: Db, account: nat)
    requires Inv(db) && !HasRegisterGift(db, account)
    ensures Count(db.ledger, OfRef(GrantRegister, account)) == 0
  {
    forall j | 0 <= j < |db.ledger| ensures !Matches(OfRef(GrantRegister, account), db.ledger[j]) {
      assert RowKnown(db, db.ledger[j]);
    }
    NoMatches(db.ledger, OfRef(GrantRegister, account));
  }

  // ---------------------------------------------------------------- tips

  lemma {:induction false} PlatformOfUnknown(entries: seq<PlatformEntry>, tip: nat)
    requires forall j :: 0 <= j < |entries| ==> entries[j].tip != tip
    ensures PlatformOf(entries, tip) == 0
  {
    if entries != [] {
      PlatformOfUnknown(entries[..|entries| - 1], tip);
    }
  }

  // Nothing mentions a tip that has not been created.
  lemma FreshTip(db: Db)
    requires RefsKnown(db)
    ensures var id := |db.tips| + 1;
            && Sum(db.ledger, OfRef(ConsumeTip, id)) == 0 && Sum(db.ledger, OfRef(GrantTip, id)) == 0
            && PlatformOf(db.platform, id) == 0
  {
    var id := |db.tips| + 1;
    assert forall j :: 0 <= j < |db.ledger| ==> RowKnown(db, db.ledger[j]);
    NoMatches(db.ledger, OfRef(ConsumeTip, id));
    NoMatches(db.ledger, OfRef(GrantTip, id));
    PlatformOfUnknown(db.platform, id);
  }

  ghost predicate TipRow(r: Row, id: nat, tip: Tip) {
    r.ref == id && ((r.biz.ConsumeTip? && r.account == tip.from) || (r.biz.GrantTip? && r.account == tip.to))
  }

  // The books of the older tips do not see the writes of a new one.
  lemma OlderTipKept(db: Db, db': Db, rows: seq<Row>, cut: int, i: nat)
    requires TipsBooked(db) && i < |db.tips|
    requires db'.ledger == db.ledger + rows && forall j :: 0 <= j < |rows| ==> rows[j].ref == |db.tips| + 1
    requires db'.platform == db.platform + [PlatformEntry(cut, |db.tips| + 1)]
    ensures TipBooked(db'.ledger, db'.platform, db.tips[i], i + 1)
  {
    assert TipBooked(db.ledger, db.platform, db.tips[i], i + 1);
    SilentRows(db.ledger, rows, ConsumeTip, i + 1);
    SilentRows(db.ledger, rows, GrantTip, i + 1);
    assert db'.platform[..|db.platform|] == db.platform;
  }

  lemma TipRefs(db: Db, db': Db, rows: seq<Row>, cut: int, tip: Tip)
    requires RefsKnown(db) && db'.tips == db.tips + [tip] && db'.orders == db.orders
    requires db'.ledger == db.ledger + rows && forall j :: 0 <= j < |rows| ==> TipRow(rows[j], |db.tips| + 1, tip)
    requires db'.platform == db.platform + [PlatformEntry(cut, |db.tips| + 1)]
    ensures RefsKnown(db')
  {
    forall j | 0 <= j < |db'.ledger| ensures RowKnown(db', db'.ledger[j]) {
      if j < |db.ledger| {
        assert RowKnown(db, db.ledger[j]);
      } else {
        assert TipRow(rows[j - |db.ledger|], |db.tips| + 1, tip);
      }
    }
  }

  // Every write of a tip refers to that tip, so the books of everything else stay as they are.
  lemma TipKeepsRest(db: Db, db': Db, rows: seq<Row>, cut: int, tip: Tip)
    requires Inv(db) && Balanced(db') && Drift(db') == 0
    requires db'.tips == db.tips + [tip] && db'.orders == db.orders
    requires db'.ledger == db.ledger + rows && forall j :: 0 <= j < |rows| ==> TipRow(rows[j], |db.tips| + 1, tip)
    requires db'.platform == db.platform + [PlatformEntry(cut, |db.tips| + 1)]
    requires TipBooked(db'.ledger, db'.platform, tip, |db'.tips|)
    ensures Inv(db')
  {
    KeepOrdersBooked(db, db', rows);
    KeepGifts(db, db', rows);
    TipRefs(db, db', rows, cut, tip);
    LastTipIs(db.tips, tip);
    TipsStayBooked(db, db', rows, cut);
  }

  lemma TipsStayBooked(db: Db, db': Db, rows: seq<Row>, cut: int)
    requires TipsBooked(db) && |db'.tips| == |db.tips| + 1 && db'.tips[..|db.tips|] == db.tips
    requires db'.ledger == db.ledger + rows && forall j :: 0 <= j < |rows| ==> rows[j].ref == |db.tips| + 1
    requires db'.platform == db.platform + [PlatformEntry(cut, |db.tips| + 1)]
    requires TipBooked(db'.ledger, db'.platform, db'.tips[|db.tips|], |db'.tips|)
    ensures TipsBooked(db')
  {
    forall i | 0 <= i < |db'.tips| ensures TipBooked(db'.ledger, db'.platform, db'.tips[i], i + 1) {
      if i < |db.tips| {
        OlderTipKept(db, db', rows, cut, i);
        assert db'.tips[i] == db'.tips[..|db.tips|][i];
      }
    }
  }

  lemma PlatformDrift(db: Db, e: PlatformEntry)
    ensures Drift(db.(platform := db.platform + [e])) == Drift(db) + e.amount
    ensures forall id :: PlatformOf(db.platform + [e], id) == PlatformOf(db.platform,
                                                                         id) + if e.tip == id then e.amount else 0
  {
    assert (db.platform + [e])[..|db.platform|] == db.platform;
  }

  lemma BalancedFrame(db: Db, db': Db)
    requires Balanced(db) && db'.lots == db.lots && db'.ledger == db.ledger
    ensures Balanced(db')
  {
    assert forall i :: 0 <= i < |db.lots| ==> (LotBalances(db', i) <==> LotBalances(db, i));
    assert forall a :: AccountBalances(db', a) <==> AccountBalances(db, a);
  }

  // The author's share is rounded down, so both shares of a tip that passes the minimum are positive.
  lemma SharesArePositive(coins: int)
    requires coins >= TIP_MIN_COINS
    ensures 0 < Received(coins) < coins
    ensures 100 * Received(coins) <= 70 * coins < 100 * (Received(coins) + 1)
  {}

  // The writes of a tip: the spend, the author's lot and the platform entry.
  lemma TipWrites(db1: Db, db2: Db, to: nat, coins: int, id: nat, grantAt: int) returns (row: Row, db4: Db)
    requires Balanced(db2) && coins >= TIP_MIN_COINS && id == |db1.tips|
    requires Drift(db2) == -coins && db2 == db1.(lots := db2.lots, ledger := db2.ledger)
    ensures row == Row(to, |db2.lots| + 1, GrantTip, Received(coins), id)
    ensures var db3 := Grant(db2, to, FromTip, Received(coins), GrantTip, id, grantAt);
            db4 == db3.(platform := db3.platform + [PlatformEntry(coins - Received(coins), id)])
    ensures Balanced(db4) && Drift(db4) == 0
    ensures db4.ledger == db2.ledger + [row] && db4.tips == db1.tips && db4.orders == db1.orders
    ensures db4.platform == db1.platform + [PlatformEntry(coins - Received(coins), id)]
  {
    SharesArePositive(coins);
    var db3 := Grant(db2, to, FromTip, Received(coins), GrantTip, id, grantAt);
    row := Row(to, |db2.lots| + 1, GrantTip, Received(coins), id);
    GrantKeepsBalance(db2, to, FromTip, Received(coins), GrantTip, id, grantAt);
    GrantDrift(db2, to, FromTip, Received(coins), GrantTip, id, grantAt);
    var entry := PlatformEntry(coins - Received(coins), id);
    PlatformDrift(db3, entry);
    db4 := db3.(platform := db3.platform + [entry]);
    BalancedFrame(db3, db4);
  }

  lemma NewTipBooked(db: Db, db': Db, tip: Tip, spent: seq<Row>, row: Row)
    requires RefsKnown(db) && IsFair(tip)
    requires db'.ledger == db.ledger + spent + [row]
    requires db'.platform == db.platform + [PlatformEntry(tip.cut, |db.tips| + 1)]
    requires forall j :: 0 <= j < |spent| ==> spent[j].biz == ConsumeTip && spent[j].ref == |db.tips| + 1
    requires Sum(spent, OfRef(ConsumeTip, |db.tips| + 1)) == -tip.coins
    requires row.biz == GrantTip && row.ref == |db.tips| + 1 && row.amount == tip.received
    ensures TipBooked(db'.ledger, db'.platform, tip, |db.tips| + 1)
  {
    FreshTip(db);
    TipSums(db.ledger, spent, row, |db.tips| + 1);
    PlatformDrift(db, PlatformEntry(tip.cut, |db.tips| + 1));
  }

  lemma TipRows(ledger: seq<Row>, spent: seq<Row>, row: Row, id: nat, tip: Tip)
    requires forall j :: 0 <= j < |spent| ==>
               spent[j].biz == ConsumeTip && spent[j].ref == id && spent[j].account == tip.from
    requires row.biz == GrantTip && row.ref == id && row.account == tip.to
    ensures forall j :: 0 <= j < |spent + [row]| ==> TipRow((spent + [row])[j], id, tip)
    ensures ledger + spent + [row] == ledger + (spent + [row])
  {}

  lemma LastTipIs(tips: seq<Tip>, tip: Tip)
    ensures (tips + [tip])[..|tips|] == tips && (tips + [tip])[|tips|] == tip
  {}

  lemma AssembleTip(db: Db, db': Db, tip: Tip, spent: seq<Row>, row: Row)
    requires Inv(db) && Balanced(db') && Drift(db') == 0 && IsFair(tip)
    requires db'.tips == db.tips + [tip] && db'.orders == db.orders
    requires db'.ledger == db.ledger + spent + [row]
    requires db'.platform == db.platform + [PlatformEntry(tip.cut, |db.tips| + 1)]
    requires forall j :: 0 <= j < |spent| ==>
               spent[j].biz == ConsumeTip && spent[j].ref == |db.tips| + 1 && spent[j].account == tip.from
    requires Sum(spent, OfRef(ConsumeTip, |db.tips| + 1)) == -tip.coins
    requires row == Row(tip.to, row.lot, GrantTip, tip.received, |db.tips| + 1)
    ensures Inv(db')
  {
    NewTipBooked(db, db', tip, spent, row);
    TipRows(db.ledger, spent, row, |db.tips| + 1, tip);
    TipKeepsRest(db, db', spent + [row], tip.cut, tip);
  }

  lemma BookTipKeepsInv(db: Db, from: nat, to: nat, video: nat, coins: int, now: int, spendAt: int, grantAt: int)
    requires Inv(db) && WellNumbered(db.lots) && coins >= TIP_MIN_COINS && from != to
    requires BookTip(db, from, to, video, coins, now, spendAt, grantAt).Ok?
    ensures Inv(BookTip(db, from, to, video, coins, now, spendAt, grantAt).value)
  {
    var id := |db.tips| + 1;
    var tip := Tip(from, to, video, coins, Received(coins), coins - Received(coins), now);
    var db1 := db.(tips := db.tips + [tip]);
    BalancedFrame(db, db1);
    SharesArePositive(coins);
    var spent := SpendKeepsBooks(db1, from, coins, ConsumeTip, id, spendAt);
    var db2 := Spend(db1, from, coins, ConsumeTip, id, spendAt).value;
    var row, db4 := TipWrites(db1, db2, to, coins, id, grantAt);
    AssembleTip(db, db4, tip, spent, row);
  }

  lemma TipSums(ledger: seq<Row>, spent: seq<Row>, row: Row, id: nat)
    requires forall j :: 0 <= j < |spent| ==> spent[j].biz == ConsumeTip && spent[j].ref == id
    requires row.biz == GrantTip && row.ref == id
    ensures Sum(ledger + spent + [row], OfRef(ConsumeTip, id))
         == Sum(ledger, OfRef(ConsumeTip, id)) + Sum(spent, OfRef(ConsumeTip, id))
    ensures Sum(ledger + spent + [row], OfRef(GrantTip, id)) == Sum(ledger, OfRef(GrantTip, id)) + row.amount
    ensures ledger + spent + [row] == ledger + (spent + [row])
  {
    Post(ledger + spent, row, OfRef(ConsumeTip, id));
    Post(ledger + spent, row, OfRef(GrantTip, id));
    SumConcat(ledger, spent, OfRef(ConsumeTip, id));
    SumConcat(ledger, spent, OfRef(GrantTip, id));
    NoMatches(spent, OfRef(GrantTip, id));
  }

  lemma SendTipKeepsInv(db: Db, op: Op)
    requires Inv(db) && WellNumbered(db.lots) && op.OpTip?
    ensures Inv(Step(db, op))
  {
    SweepKeepsInv(db, Some(op.from), op.now);
    var db1 := Sweep(db, Some(op.from), op.now);
    BalancedIsWellNumbered(db1);
    if SendTip(db, op.from, op.video, op.videoId, op.coins, op.now, op.spendAt, op.grantAt).Ok? {
      BookTipKeepsInv(db1, op.from, op.video.value.author, op.videoId, op.coins, op.now, op.spendAt, op.grantAt);
    }
  }

  // ---------------------------------------------------------------- orders

  // Replacing orders by ones with the same books: pending may become closed, nothing else changes.
  ghost predicate OnlyCloses(before: seq<Order>, after: seq<Order>) {
    && |after| == |before|
    && forall i :: 0 <= i < |before| ==>
         after[i] == before[i] || (before[i].status == Pending && after[i] == before[i].(status := Closed))
  }

  lemma ClosingKeepsInv(db: Db, orders: seq<Order>)
    requires Inv(db) && OnlyCloses(db.orders, orders)
    ensures Inv(db.(orders := orders))
  {
    var db' := db.(orders := orders);
    assert db.ledger + [] == db.ledger;
    BalancedFrame(db, db');
    KeepTipsBooked(db, db', []);
    KeepRefs(db, db', []);
    forall i | 0 <= i < |orders| ensures OrderBooked(db'.ledger, orders[i], i + 1) {
      assert OrderBooked(db.ledger, db.orders[i], i + 1);
    }
  }

  lemma FreshOrder(db: Db)
    requires RefsKnown(db)
    ensures var id := |db.orders| + 1;
            && Sum(db.ledger, OfRef(GrantRecharge, id)) == 0 && Count(db.ledger, OfRef(GrantRecharge, id)) == 0
            && Sum(db.ledger, OfRef(GrantRechargeBonus, id)) == 0
            && Count(db.ledger, OfRef(GrantRechargeBonus, id)) == 0
  {
    var id := |db.orders| + 1;
    assert forall j :: 0 <= j < |db.ledger| ==> RowKnown(db, db.ledger[j]);
    NoMatches(db.ledger, OfRef(GrantRecharge, id));
    NoMatches(db.ledger, OfRef(GrantRechargeBonus, id));
  }

  // A new unpaid order for an account that has no pending one.
  lemma AddOrderKeepsInv(db: Db, order: Order)
    requires Inv(db) && order.status != Paid
    requires order.yuan >= 1 && order.coins == order.yuan * YUAN_TO_COINS && order.bonus == Bonus(order.yuan)
    requires forall i :: 0 <= i < |db.orders| && db.orders[i].status == Pending ==> db.orders[i].account != order.account
    ensures Inv(db.(orders := db.orders + [order]))
  {
    var db' := db.(orders := db.orders + [order]);
    FreshOrder(db);
    assert db.ledger + [] == db.ledger;
    BalancedFrame(db, db');
    KeepTipsBooked(db, db', []);
    KeepRefs(db, db', []);
    forall i | 0 <= i < |db'.orders| ensures OrderBooked(db'.ledger, db'.orders[i], i + 1) {
      if i < |db.orders| {
        assert OrderBooked(db.ledger, db.orders[i], i + 1);
      }
    }
  }

  lemma CloseOthersKeepsInv(db: Db, account: nat)
    requires Inv(db)
    ensures var closed := CloseAll(db.orders, SelectOrders(db.orders, PendingOfAccount(account)));
            && Inv(db.(orders := closed))
            && forall i :: 0 <= i < |closed| && closed[i].status == Pending ==> closed[i].account != account
  {
    CloseAllOnlyCloses(db.orders, PendingOfAccount(account), 0);
    ClosingKeepsInv(db, CloseAll(db.orders, SelectOrders(db.orders, PendingOfAccount(account))));
    ClosedLeavesNonePending(db.orders, account);
  }

  lemma RechargeKeepsInv(db: Db, account: nat, yuan: int, now: int)
    requires Inv(db)
    ensures Inv(CreateRecharge(db, account, yuan, now).0)
  {
    if yuan >= 1 {
      var closed := db.(orders := CloseAll(db.orders, SelectOrders(db.orders, PendingOfAccount(account))));
      CloseOthersKeepsInv(db, account);
      AddOrderKeepsInv(closed, NewOrder(account, yuan, now));
    }
  }

  // After closing an account's pending orders only other accounts have pending ones.
  lemma ClosedLeavesNonePending(orders: seq<Order>, account: nat)
    ensures var closed := CloseAll(orders, SelectOrders(orders, PendingOfAccount(account)));
            forall i :: 0 <= i < |closed| && closed[i].status == Pending ==> closed[i].account != account
  {
    var ids := SelectOrders(orders, PendingOfAccount(account));
    var closed := CloseAll(orders, ids);
    forall i | 0 <= i < |closed| && closed[i].account == account ensures closed[i].status != Pending {
      assert Picks(PendingOfAccount(account), orders[i]) ==> i + 1 in ids;
    }
  }

  lemma CloseAllOnlyCloses(orders: seq<Order>, q: OrderQuery, limit: nat)
    ensures OnlyCloses(orders, CloseAll(orders, FirstN(SelectOrders(orders, q), limit)))
    ensures OnlyCloses(orders, CloseAll(orders, SelectOrders(orders, q)))
  {
    var ids := SelectOrders(orders, q);
    assert forall x :: x in FirstN(ids, limit) ==> x in ids;
  }

  lemma GrantToOrder(db: Db, id: nat, amount: int, biz: Biz, now: int) returns (rows: seq<Row>)
    requires Balanced(db) && OrderExists(db, id) && biz in {GrantRecharge, GrantRechargeBonus}
    ensures var db' := Grant(db, db.orders[id - 1].account, FromRecharge, amount, biz, id, now);
            && Balanced(db') && Drift(db') == Drift(db)
            && db' == db.(lots := db'.lots, ledger := db.ledger + rows)
    ensures rows == if amount > 0 then [Row(db.orders[id - 1].account, |db.lots| + 1, biz, amount, id)] else []
  {
    var account := db.orders[id - 1].account;
    GrantKeepsBalance(db, account, FromRecharge, amount, biz, id, now);
    GrantDrift(db, account, FromRecharge, amount, biz, id, now);
    rows := if amount > 0 then [Row(account, |db.lots| + 1, biz, amount, id)] else [];
    assert db.ledger + [] == db.ledger;
  }

  lemma OneRowSums(ledger: seq<Row>, rows: seq<Row>, b: Biz, ref: int)
    requires |rows| <= 1 && forall j :: 0 <= j < |rows| ==> rows[j].biz == b && rows[j].ref == ref
    ensures Sum(ledger + rows, OfRef(b, ref)) == Sum(ledger, OfRef(b, ref)) + if rows == [] then 0 else rows[0].amount
    ensures Count(ledger + rows, OfRef(b, ref)) == Count(ledger, OfRef(b, ref)) + |rows|
  {
    if rows == [] {
      assert ledger + rows == ledger;
    } else {
      assert rows == [rows[0]];
      Post(ledger, rows[0], OfRef(b, ref));
    }
  }

  // Crediting an unpaid order books its coins and bonus exactly once.
  lemma CreditBooksOrder(ledger: seq<Row>, o: Order, id: nat, main: seq<Row>, extra: seq<Row>)
    requires OrderBooked(ledger, o, id) && o.status != Paid
    requires |main| == 1 && main[0].biz == GrantRecharge && main[0].ref == id && main[0].amount == o.coins
    requires |extra| == (if o.bonus > 0 then 1 else 0)
    requires extra != [] ==> extra[0].biz == GrantRechargeBonus && extra[0].ref == id && extra[0].amount == o.bonus
    ensures OrderBooked(ledger + main + extra, o.(status := Paid), id)
  {
    OneRowSums(ledger, main, GrantRecharge, id);
    SilentRows(ledger, main, GrantRechargeBonus, id);
    SilentRows(ledger + main, extra, GrantRecharge, id);
    OneRowSums(ledger + main, extra, GrantRechargeBonus, id);
  }

  // Crediting books the coins and, if any, the bonus.
  lemma CreditWrites(db: Db, id: nat, now: int) returns (main: seq<Row>, extra: seq<Row>)
    requires Balanced(db) && OrderExists(db, id)
    ensures var order := db.orders[id - 1];
            var db1 := db.(orders := db.orders[id - 1 := order.(status := Paid)]);
            var db2 := Grant(db1, order.account, FromRecharge, order.coins, GrantRecharge, id, now);
            var db3 := Grant(db2, order.account, FromRecharge, order.bonus, GrantRechargeBonus, id, now);
            && Balanced(db3) && Drift(db3) == Drift(db)
            && db3 == db1.(lots := db3.lots, ledger := db.ledger + main + extra)
    ensures var order := db.orders[id - 1];
            && main == (if order.coins > 0 then [Row(order.account, |db.lots| + 1, GrantRecharge, order.coins, id)] else [])
            && (order.bonus <= 0 ==> extra == [])
            && (order.bonus > 0 ==> |extra| == 1 && extra[0].account == order.account && extra[0].amount == order.bonus
                                    && extra[0].biz == GrantRechargeBonus && extra[0].ref == id)
  {
    var order := db.orders[id - 1];
    var db1 := db.(orders := db.orders[id - 1 := order.(status := Paid)]);
    BalancedFrame(db, db1);
    main := GrantToOrder(db1, id, order.coins, GrantRecharge, now);
    var db2 := Grant(db1, order.account, FromRecharge, order.coins, GrantRecharge, id, now);
    extra := GrantToOrder(db2, id, order.bonus, GrantRechargeBonus, now);
  }

  lemma CreditKeepsInv(db: Db, id: nat, now: int)
    requires Inv(db) && OrderExists(db, id) && db.orders[id - 1].status != Paid
    ensures CreditPaid(db, id, FormatYuan(db.orders[id - 1].yuan), now).Ok?
    ensures Inv(CreditPaid(db, id, FormatYuan(db.orders[id - 1].yuan), now).value)
  {
    var order := db.orders[id - 1];
    ParseFormatted(order.yuan);
    var main, extra := CreditWrites(db, id, now);
    assert OrderBooked(db.ledger, order, id);
    CreditBooksOrder(db.ledger, order, id, main, extra);
    BothAreCreditRows(db.ledger, main, extra, id, order.account);
    CreditKeepsRest(db, CreditPaid(db, id, FormatYuan(order.yuan), now).value, id, main + extra);
  }

  lemma CreditKeepsRest(db: Db, db': Db, id: nat, rows: seq<Row>)
    requires Inv(db) && OrderExists(db, id) && Balanced(db') && Drift(db') == 0
    requires db'.platform == db.platform && db'.tips == db.tips
    requires db'.orders == db.orders[id - 1 := db.orders[id - 1].(status := Paid)]
    requires db'.ledger == db.ledger + rows
    requires CreditRows(rows, id, db.orders[id - 1].account)
    requires OrderBooked(db'.ledger, db'.orders[id - 1], id)
    ensures Inv(db')
  {
    KeepTipsBooked(db, db', rows);
    KeepGifts(db, db', rows);
    KeepRefs(db, db', rows);
    CreditedOrdersBooked(db, db', id, rows);
    OnePendingLess(db.orders, id);
  }

  lemma OnePendingLess(orders: seq<Order>, id: nat)
    requires OnePending(orders) && 0 < id <= |orders|
    ensures OnePending(orders[id - 1 := orders[id - 1].(status := Paid)])
  {}

  lemma CreditedOrdersBooked(db: Db, db': Db, id: nat, rows: seq<Row>)
    requires OrdersBooked(db) && OrderExists(db, id) && CreditRows(rows, id, db.orders[id - 1].account)
    requires db'.orders == db.orders[id - 1 := db.orders[id - 1].(status := Paid)] && db'.ledger == db.ledger + rows
    requires OrderBooked(db'.ledger, db'.orders[id - 1], id)
    ensures OrdersBooked(db')
  {
    forall i | 0 <= i < |db'.orders| ensures OrderBooked(db'.ledger, db'.orders[i], i + 1) {
      if i != id - 1 {
        OtherOrderKept(db, id, rows, i);
      }
    }
  }

  lemma OtherOrderKept(db: Db, id: nat, rows: seq<Row>, i: nat)
    requires OrdersBooked(db) && i < |db.orders| && i != id - 1 && forall j :: 0 <= j < |rows| ==> rows[j].ref == id
    ensures OrderBooked(db.ledger + rows, db.orders[i], i + 1)
  {
    assert OrderBooked(db.ledger, db.orders[i], i + 1);
    SilentRows(db.ledger, rows, GrantRecharge, i + 1);
    SilentRows(db.ledger, rows, GrantRechargeBonus, i + 1);
  }

  // What crediting an order writes refers to that order.
  ghost predicate CreditRows(rows: seq<Row>, id: nat, account: nat) {
    forall j :: 0 <= j < |rows| ==>
      (rows[j].biz.GrantRecharge? || rows[j].biz.GrantRechargeBonus?) && rows[j].ref == id && rows[j].account == account
  }

  lemma BothAreCreditRows(ledger: seq<Row>, main: seq<Row>, extra: seq<Row>, id: nat, account: nat)
    requires CreditRows(main, id, account) && CreditRows(extra, id, account)
    ensures CreditRows(main + extra, id, account) && ledger + main + extra == ledger + (main + extra)
  {}

  lemma StripeKeepsInv(db: Db, id: nat, total: int, now: int)
    requires Inv(db)
    ensures Inv(Settle(db, CreditStripe(db, id, total, now)))
  {
    if OrderExists(db, id) && db.orders[id - 1].status != Paid {
      CreditKeepsInv(db, id, now);
    }
  }

  lemma CloseKeepsInv(db: Db, id: nat)
    requires Inv(db)
    ensures Inv(CloseOrder(db, id))
  {
    if OrderExists(db, id) && db.orders[id - 1].status == Pending {
      ClosingKeepsInv(db, CloseOrder(db, id).orders);
    }
  }

  // The unconditional close after a failed checkout is safe exactly while the order is unpaid.
  lemma FailCheckoutIsSafeIffUnpaid(db: Db, id: nat)
    requires Inv(db) && OrderExists(db, id)
    ensures Inv(FailCheckout(db, id)) <==> db.orders[id - 1].status != Paid
  {
    var db' := FailCheckout(db, id);
    assert OrderBooked(db.ledger, db.orders[id - 1], id);
    if db.orders[id - 1].status != Paid {
      if db.orders[id - 1].status == Pending {
        ClosingKeepsInv(db, db'.orders);
      } else {
        assert db' == db;
      }
    } else {
      assert !OrderBooked(db'.ledger, db'.orders[id - 1], id);
    }
  }

  // ---------------------------------------------------------------- one operation

  lemma CheckinKeepsInv(db: Db, account: nat, draw: int, date: int, now: int)
    requires Inv(db)
    ensures Inv(Settle(db, Checkin(db, account, draw, date, now)))
  {
    var db1 := db.(daily := db.daily + {Daily(account, false, date)});
    DailyIsOutsideTheBooks(db, db1.daily);
    QuietGrantKeepsInv(db1, account, FromCheckin, CheckinPrize(draw), GrantCheckin, date, now);
  }

  lemma LotteryKeepsInv(db: Db, account: nat, draw: int, date: int, now: int)
    requires Inv(db)
    ensures Inv(Settle(db, Lottery(db, account, draw, date, now)))
  {
    var db1 := db.(daily := db.daily + {Daily(account, true, date)});
    DailyIsOutsideTheBooks(db, db1.daily);
    if LotteryPrize(draw) > 0 {
      QuietGrantKeepsInv(db1, account, FromLottery, LotteryPrize(draw), GrantLottery, date, now);
    } else {
      EmptyPrizeKeepsInv(db1, account, date);
    }
  }

  lemma RechargeStepKeepsInv(db: Db, op: Op)
    requires Inv(db) && WellNumbered(db.lots) && op.OpRecharge?
    ensures Inv(Step(db, op))
  {
    RechargeKeepsInv(db, op.account, op.yuan, op.now);
  }

  lemma FailCheckoutStepKeepsInv(db: Db, op: Op)
    requires Inv(db) && WellNumbered(db.lots) && op.OpFailCheckout?
    ensures Inv(Step(db, op))
  {
    if CheckoutCanFail(db, op.id) {
      FailCheckoutIsSafeIffUnpaid(db, op.id);
    }
  }

  lemma WebhookStepKeepsInv(db: Db, op: Op)
    requires Inv(db) && WellNumbered(db.lots) && op.OpWebhook?
    ensures Inv(Step(db, op))
  {
    StripeKeepsInv(db, op.id, op.amountTotal, op.now);
  }

  lemma QueryStepKeepsInv(db: Db, op: Op)
    requires Inv(db) && WellNumbered(db.lots) && op.OpQuery?
    ensures Inv(Step(db, op))
  {
    CloseKeepsInv(db, op.id);
    if op.answer.Settled? {
      StripeKeepsInv(db, op.id, op.answer.amountTotal, op.now);
    }
  }

  lemma CloseStepKeepsInv(db: Db, op: Op)
    requires Inv(db) && WellNumbered(db.lots) && op.OpClose?
    ensures Inv(Step(db, op))
  {
    CloseKeepsInv(db, op.id);
  }

  lemma SweepOrdersStepKeepsInv(db: Db, op: Op)
    requires Inv(db) && WellNumbered(db.lots) && op.OpSweepOrders?
    ensures Inv(Step(db, op))
  {
    CloseAllOnlyCloses(db.orders, DueAt(op.now), ORDER_BATCH);
    ClosingKeepsInv(db, SweepOrders(db, op.now).orders);
  }

  lemma OrderStepKeepsInv(db: Db, op: Op)
    requires Inv(db) && WellNumbered(db.lots)
    requires op.OpRecharge? || op.OpFailCheckout? || op.OpWebhook? || op.OpQuery? || op.OpClose? || op.OpSweepOrders?
    ensures Inv(Step(db, op))
  {
    if op.OpRecharge? {
      RechargeStepKeepsInv(db, op);
    } else if op.OpFailCheckout? {
      FailCheckoutStepKeepsInv(db, op);
    } else if op.OpWebhook? {
      WebhookStepKeepsInv(db, op);
    } else if op.OpQuery? {
      QueryStepKeepsInv(db, op);
    } else if op.OpClose? {
      CloseStepKeepsInv(db, op);
    } else {
      SweepOrdersStepKeepsInv(db, op);
    }
  }

  // ---------------------------------------------------------------- runs

  lemma StepKeepsInv(db: Db, op: Op)
    requires Inv(db) && WellNumbered(db.lots)
    ensures Inv(Step(db, op))
  {
    match op
    case OpRegister(a, now) => GiftKeepsInv(db, a, now);
    case OpCheckin(a, draw, date, now) => CheckinKeepsInv(db, a, draw, date, now);
    case OpLottery(a, draw, date, now) => LotteryKeepsInv(db, a, draw, date, now);
    case OpTip(_, _, _, _, _, _, _) => SendTipKeepsInv(db, op);
    case OpSummary(a, now) => SweepKeepsInv(db, Some(a), now);
    case OpSweepLots(now) => SweepKeepsInv(db, None, now);
    case _ => OrderStepKeepsInv(db, op);
  }

  lemma EmptyTablesInv()
    ensures Inv(EMPTY_DB)
  {
    assert forall a :: AccountBalances(EMPTY_DB, a);
  }

  // The state after a sequence of operations on empty tables; its contract is the safety of every run.
  ghost function Run(ops: seq<Op>): (db: Db)
    ensures Inv(db) && WellNumbered(db.lots)
  {
    if ops == [] then
      EmptyTablesInv();
      EMPTY_DB
    else
      var before := Run(ops[..|ops| - 1]);
      StepKeepsInv(before, ops[|ops| - 1]);
      BalancedIsWellNumbered(Step(before, ops[|ops| - 1]));
      Step(before, ops[|ops| - 1])
  }

  // In every run: each lot is the sum of its rows, each account the sum of its lots, and what users and the
  // platform hold is what was granted from outside less what expired.
  lemma ConservationInEveryRun(ops: seq<Op>)
    ensures var db := Run(ops);
            && (forall i :: 0 <= i < |db.lots| ==>
                  db.lots[i].remaining >= 0 && db.lots[i].remaining == Sum(db.ledger, OfLot(i + 1)))
            && (forall a :: LotsOf(db.lots, a) == Sum(db.ledger, OfAccount(a)))
            && Sum(db.ledger, All) + PlatformTotal(db.platform) == Sum(db.ledger, External) + Sum(db.ledger, Expiry)
  {
    InvMeansConserved(Run(ops));
  }

  lemma InvMeansConserved(db: Db)
    requires Inv(db)
    ensures forall i :: 0 <= i < |db.lots| ==>
              db.lots[i].remaining >= 0 && db.lots[i].remaining == Sum(db.ledger, OfLot(i + 1))
    ensures forall a :: LotsOf(db.lots, a) == Sum(db.ledger, OfAccount(a))
    ensures Sum(db.ledger, All) + PlatformTotal(db.platform) == Sum(db.ledger, External) + Sum(db.ledger, Expiry)
  {
    forall i | 0 <= i < |db.lots|
      ensures db.lots[i].remaining >= 0 && db.lots[i].remaining == Sum(db.ledger, OfLot(i + 1))
    {
      assert LotBalances(db, i);
    }
    forall a ensures LotsOf(db.lots, a) == Sum(db.ledger, OfAccount(a)) {
      assert AccountBalances(db, a);
    }
  }

  // In every run: each tip cost its sender the coins, brought its author his share and the platform the rest, and no row
  // of any tip stands on another account than the sender's or the author's.
  lemma TipsAreBookedInEveryRun(ops: seq<Op>)
    ensures var db := Run(ops);
            && (forall i :: 0 <= i < |db.tips| ==> TipBooked(db.ledger, db.platform, db.tips[i], i + 1))
            && (forall r :: r in db.ledger && r.biz == ConsumeTip ==>
                  0 < r.ref <= |db.tips| && r.account == db.tips[r.ref - 1].from)
            && (forall r :: r in db.ledger && r.biz == GrantTip ==>
                  0 < r.ref <= |db.tips| && r.account == db.tips[r.ref - 1].to)
  {
    var db := Run(ops);
    forall r | r in db.ledger ensures RowKnown(db, r) {
      var j :| 0 <= j < |db.ledger| && db.ledger[j] == r;
    }
  }

  // In every run: an order is paid iff its coins (and bonus, if any) were granted, once each, and an account has
  // at most one pending order.
  lemma PaidIffGrantedInEveryRun(ops: seq<Op>)
    ensures var db := Run(ops);
            && (forall i :: 0 <= i < |db.orders| ==>
                  var o := db.orders[i];
                  && (o.status == Paid <==> Count(db.ledger, OfRef(GrantRecharge, i + 1)) == 1)
                  && (o.status != Paid <==> Count(db.ledger, OfRef(GrantRecharge, i + 1)) == 0)
                  && Sum(db.ledger, OfRef(GrantRecharge, i + 1)) == (if o.status == Paid then o.coins else 0)
                  && Count(db.ledger, OfRef(GrantRechargeBonus, i + 1)) == (if o.status == Paid && o.bonus > 0 then 1 else 0)
                  && Sum(db.ledger, OfRef(GrantRechargeBonus, i + 1)) == (if o.status == Paid then o.bonus else 0))
            && OnePending(db.orders)
  {
    var db := Run(ops);
    forall i | 0 <= i < |db.orders| ensures OrderBooked(db.ledger, db.orders[i], i + 1) {}
  }

  // ---------------------------------------------------------------- paid is final

  ghost predicate PaidStays(before: seq<Order>, after: seq<Order>) {
    && |before| <= |after|
    && forall i :: 0 <= i < |before| && before[i].status == Paid ==> after[i] == before[i]
  }

  lemma TipKeepsOrders(db: Db, op: Op)
    requires WellNumbered(db.lots) && op.OpTip?
    ensures Step(db, op).orders == db.orders
  {
    var db1 := Sweep(db, Some(op.from), op.now);
    SweepEffect(db, Some(op.from), op.now);
    if SendTip(db, op.from, op.video, op.videoId, op.coins, op.now, op.spendAt, op.grantAt).Ok? {
      SweepNumbering(db, Some(op.from), op.now);
      var id := |db1.tips| + 1;
      var tip := Tip(op.from, op.video.value.author, op.videoId, op.coins, Received(op.coins),
                     op.coins - Received(op.coins), op.now);
      var db2 := db1.(tips := db1.tips + [tip]);
      AvailableIsSnapshot(db2.lots, op.from, op.spendAt);
      SpendFromLedger(db2, AvailableLots(db2.lots, op.from, op.spendAt), op.coins, ConsumeTip, id);
    }
  }

  // Only order operations touch orders.
  lemma OthersKeepOrders(db: Db, op: Op)
    requires WellNumbered(db.lots)
    requires op.OpRegister? || op.OpCheckin? || op.OpLottery? || op.OpSummary? || op.OpSweepLots?
    ensures Step(db, op).orders == db.orders
  {
    match op
    case OpSummary(a, now) => SweepEffect(db, Some(a), now);
    case OpSweepLots(now) => SweepEffect(db, None, now);
    case _ =>
  }

  lemma StripeKeepsPaid(db: Db, id: nat, total: int, now: int)
    ensures PaidStays(db.orders, Settle(db, CreditStripe(db, id, total, now)).orders)
  {}

  lemma RechargeStepKeepsPaid(db: Db, op: Op)
    requires WellNumbered(db.lots) && op.OpRecharge?
    ensures PaidStays(db.orders, Step(db, op).orders)
  {
    CloseAllOnlyCloses(db.orders, PendingOfAccount(op.account), 0);
  }

  lemma FailCheckoutStepKeepsPaid(db: Db, op: Op)
    requires WellNumbered(db.lots) && op.OpFailCheckout?
    ensures PaidStays(db.orders, Step(db, op).orders)
  {}

  lemma WebhookStepKeepsPaid(db: Db, op: Op)
    requires WellNumbered(db.lots) && op.OpWebhook?
    ensures PaidStays(db.orders, Step(db, op).orders)
  {
    StripeKeepsPaid(db, op.id, op.amountTotal, op.now);
  }

  lemma QueryStepKeepsPaid(db: Db, op: Op)
    requires WellNumbered(db.lots) && op.OpQuery?
    ensures PaidStays(db.orders, Step(db, op).orders)
  {
    if op.answer.Settled? {
      StripeKeepsPaid(db, op.id, op.answer.amountTotal, op.now);
    }
  }

  lemma CloseStepKeepsPaid(db: Db, op: Op)
    requires WellNumbered(db.lots) && op.OpClose?
    ensures PaidStays(db.orders, Step(db, op).orders)
  {}

  lemma OnlyClosesKeepsPaid(before: seq<Order>, after: seq<Order>)
    requires OnlyCloses(before, after)
    ensures PaidStays(before, after)
  {}

  lemma SweepOrdersStepKeepsPaid(db: Db, op: Op)
    requires WellNumbered(db.lots) && op.OpSweepOrders?
    ensures PaidStays(db.orders, Step(db, op).orders)
  {
    CloseAllOnlyCloses(db.orders, DueAt(op.now), ORDER_BATCH);
    OnlyClosesKeepsPaid(db.orders, SweepOrders(db, op.now).orders);
  }

  lemma OrderStepKeepsPaid(db: Db, op: Op)
    requires WellNumbered(db.lots)
    requires op.OpRecharge? || op.OpFailCheckout? || op.OpWebhook? || op.OpQuery? || op.OpClose? || op.OpSweepOrders?
    ensures PaidStays(db.orders, Step(db, op).orders)
  {
    if op.OpRecharge? {
      RechargeStepKeepsPaid(db, op);
    } else if op.OpFailCheckout? {
      FailCheckoutStepKeepsPaid(db, op);
    } else if op.OpWebhook? {
      WebhookStepKeepsPaid(db, op);
    } else if op.OpQuery? {
      QueryStepKeepsPaid(db, op);
    } else if op.OpClose? {
      CloseStepKeepsPaid(db, op);
    } else {
      SweepOrdersStepKeepsPaid(db, op);
    }
  }

  lemma StepKeepsPaid(db: Db, op: Op)
    requires WellNumbered(db.lots)
    ensures PaidStays(db.orders, Step(db, op).orders)
  {
    match op
    case OpTip(_, _, _, _, _, _, _) => TipKeepsOrders(db, op);
    case OpRegister(_, _) | OpCheckin(_, _, _, _) | OpLottery(_, _, _, _) | OpSummary(_, _) | OpSweepLots(_) =>
      OthersKeepOrders(db, op);
    case _ => OrderStepKeepsPaid(db, op);
  }

  // Once paid, an order is never touched again, whatever runs afterwards.
  lemma {:induction false} PaidForever(ops: seq<Op>, more: seq<Op>)
    ensures PaidStays(Run(ops).orders, Run(ops + more).orders)
    decreases |more|
  {
    if more == [] {
      assert ops + more == ops;
    } else {
      var n := |more| - 1;
      PaidForever(ops, more[..n]);
      assert (ops + more)[..|ops + more| - 1] == ops + more[..n];
      StepKeepsPaid(Run(ops + more[..n]), more[n]);
    }
  }

  // A notification with the right amount is credited at once, even on a closed order, and repeating it changes nothing.
  lemma LatePaymentCreditedOnce(db: Db, id: nat, now: int, later: int)
    requires Inv(db) && OrderExists(db, id)
    ensures var paid := Settle(db, CreditStripe(db, id, db.orders[id - 1].yuan * 100, now));
            && OrderExists(paid, id) && paid.orders[id - 1].status == Paid
            && Settle(paid, CreditStripe(paid, id, paid.orders[id - 1].yuan * 100, later)) == paid
  {
    ParseFormatted(db.orders[id - 1].yuan);
  }
}
