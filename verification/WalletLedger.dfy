/**
 The wallet tables (wallet/entity.go) and the two primitive writes every operation is made of: granting a lot
 and taking coins from one. Rows are identified as the database does, by an auto-increment id: the lot, tip or
 order with id n is element n-1. Times are instants on an integer clock; coins are unbounded integers.
*/
module WalletLedger {
  import opened Wrappers

  datatype Source = FromCheckin | FromLottery | FromRecharge | FromRegister | FromTip

  datatype Biz =
    | GrantRegister | GrantCheckin | GrantLottery | GrantRecharge | GrantRechargeBonus | GrantTip
    | ConsumeTip | Expire

  datatype Lot = Lot(id: nat, account: nat, source: Source, remaining: int, expireAt: Option<int>, createdAt: int)

  // lot == 0 means the row belongs to no lot; ref is the account, date, tip, order or lot the row refers to.
  datatype Row = Row(account: nat, lot: nat, biz: Biz, amount: int, ref: int)

  datatype PlatformEntry = PlatformEntry(amount: int, tip: nat)

  datatype Tip = Tip(from: nat, to: nat, video: nat, coins: int, received: int, cut: int, createdAt: int)

  datatype OrderStatus = Pending | Paid | Closed

  datatype Order = Order(account: nat, yuan: int, coins: int, bonus: int, status: OrderStatus, expireAt: int)

  datatype Daily = Daily(account: nat, lottery: bool, date: int)

  datatype Db = Db(
    lots: seq<Lot>, ledger: seq<Row>, platform: seq<PlatformEntry>, tips: seq<Tip>, orders: seq<Order>,
    daily: set<Daily>)

  const EMPTY_DB := Db([], [], [], [], [], {})

  const DAY := 86_400_000_000_000
  const REGISTER_GIFT_COINS := 10

  // expireFor: recharged coins never expire.
  function ExpireFor(source: Source, now: int): Option<int> {
    match source
    case FromRegister => Some(now + 30 * DAY)
    case FromCheckin | FromLottery => Some(now + 15 * DAY)
    case FromTip => Some(now + 90 * DAY)
    case FromRecharge => None
  }

  // ---------------------------------------------------------------- sums over the ledger

  datatype Key = All | OfLot(lot: nat) | OfAccount(account: nat) | External | Expiry | OfRef(biz: Biz, ref: int)

  predicate IsExternal(b: Biz) {
    b.GrantRegister? || b.GrantCheckin? || b.GrantLottery? || b.GrantRecharge? || b.GrantRechargeBonus?
  }

  predicate Matches(k: Key, r: Row) {
    match k
    case All => true
    case OfLot(lot) => r.lot == lot
    case OfAccount(a) => r.account == a
    case External => IsExternal(r.biz)
    case Expiry => r.biz.Expire?
    case OfRef(b, ref) => r.biz == b && r.ref == ref
  }

  function Sum(ledger: seq<Row>, k: Key): int {
    if ledger == [] then 0
    else Sum(ledger[..|ledger| - 1], k) + if Matches(k, ledger[|ledger| - 1]) then ledger[|ledger| - 1].amount else 0
  }

  function Count(ledger: seq<Row>, k: Key): nat {
    if ledger == [] then 0
    else Count(ledger[..|ledger| - 1], k) + if Matches(k, ledger[|ledger| - 1]) then 1 else 0
  }

  function PlatformTotal(entries: seq<PlatformEntry>): int {
    if entries == [] then 0 else PlatformTotal(entries[..|entries| - 1]) + entries[|entries| - 1].amount
  }

  function LotsOf(lots: seq<Lot>, account: nat): int {
    if lots == [] then 0
    else LotsOf(lots[..|lots| - 1], account)
         + if lots[|lots| - 1].account == account then lots[|lots| - 1].remaining else 0
  }

  lemma Post(ledger: seq<Row>, r: Row, k: Key)
    ensures Sum(ledger + [r], k) == Sum(ledger, k) + if Matches(k, r) then r.amount else 0
    ensures Count(ledger + [r], k) == Count(ledger, k) + if Matches(k, r) then 1 else 0
  {
    assert (ledger + [r])[..|ledger|] == ledger;
  }

  lemma {:induction false} SumConcat(a: seq<Row>, b: seq<Row>, k: Key)
    ensures Sum(a + b, k) == Sum(a, k) + Sum(b, k) && Count(a + b, k) == Count(a, k) + Count(b, k)
  {
    if b == [] {
      assert a + b == a;
    } else {
      SumConcat(a, b[..|b| - 1], k);
      assert (a + b)[..|a + b| - 1] == a + b[..|b| - 1];
    }
  }

  lemma SumCons(r: Row, rows: seq<Row>, k: Key)
    ensures Sum([r] + rows, k) == Sum(rows, k) + if Matches(k, r) then r.amount else 0
  {
    SumConcat([r], rows, k);
    Post([], r, k);
    assert [] + [r] == [r];
  }

  lemma PostAll(ledger: seq<Row>, r: Row)
    ensures forall k :: Sum(ledger + [r], k) == Sum(ledger, k) + if Matches(k, r) then r.amount else 0
    ensures forall k :: Count(ledger + [r], k) == Count(ledger, k) + if Matches(k, r) then 1 else 0
  {
    forall k
      ensures Sum(ledger + [r], k) == Sum(ledger, k) + if Matches(k, r) then r.amount else 0
      ensures Count(ledger + [r], k) == Count(ledger, k) + if Matches(k, r) then 1 else 0
    {
      Post(ledger, r, k);
    }
  }

  lemma {:induction false} LotsOfUpdate(lots: seq<Lot>, i: nat, remaining: int, account: nat)
    requires i < |lots|
    ensures LotsOf(lots[i := lots[i].(remaining := remaining)], account)
         == LotsOf(lots, account) + if lots[i].account == account then remaining - lots[i].remaining else 0
  {
    var n := |lots| - 1;
    var lots' := lots[i := lots[i].(remaining := remaining)];
    if i < n {
      LotsOfUpdate(lots[..n], i, remaining, account);
      assert lots'[..n] == lots[..n][i := lots[i].(remaining := remaining)];
    } else {
      assert lots'[..n] == lots[..n];
    }
  }

  lemma LotsOfAppend(lots: seq<Lot>, l: Lot, account: nat)
    ensures LotsOf(lots + [l], account) == LotsOf(lots, account) + if l.account == account then l.remaining else 0
  {
    assert (lots + [l])[..|lots|] == lots;
  }

  // ---------------------------------------------------------------- what every reachable ledger satisfies

  ghost predicate RowFits(lots: seq<Lot>, r: Row) {
    if r.lot == 0 then r.amount == 0 else r.lot <= |lots| && r.account == lots[r.lot - 1].account
  }

  ghost predicate LotBalances(db: Db, i: nat)
    requires i < |db.lots|
  {
    && db.lots[i].id == i + 1
    && db.lots[i].remaining >= 0
    && db.lots[i].remaining == Sum(db.ledger, OfLot(i + 1))
  }

  ghost predicate AccountBalances(db: Db, a: nat) {
    LotsOf(db.lots, a) == Sum(db.ledger, OfAccount(a))
  }

  // Lots, ledger rows and accounts agree.
  ghost predicate Balanced(db: Db) {
    && (forall j :: 0 <= j < |db.ledger| ==> RowFits(db.lots, db.ledger[j]))
    && (forall i :: 0 <= i < |db.lots| ==> LotBalances(db, i))
    && (forall a :: AccountBalances(db, a))
  }

  // Coins created so far minus coins accounted for: external grants bring coins in, expiry takes them out,
  // and everything else should only move them between users and the platform.
  function Drift(db: Db): int {
    Sum(db.ledger, All) + PlatformTotal(db.platform) - Sum(db.ledger, External) - Sum(db.ledger, Expiry)
  }

  // ---------------------------------------------------------------- the primitive writes

  // grantInTx: a new lot and its ledger row; nothing for a non-positive amount.
  function Grant(db: Db, account: nat, source: Source, amount: int, biz: Biz, ref: int, now: int): Db {
    if amount <= 0 then db
    else
      var id := |db.lots| + 1;
      db.(lots := db.lots + [Lot(id, account, source, amount, ExpireFor(source, now), now)],
          ledger := db.ledger + [Row(account, id, biz, amount, ref)])
  }

  // Lower one lot by `take` and write the negative row.
  function Take(db: Db, id: nat, take: int, biz: Biz, ref: int): Db
    requires 0 < id <= |db.lots|
  {
    var lot := db.lots[id - 1];
    db.(lots := db.lots[id - 1 := lot.(remaining := lot.remaining - take)],
        ledger := db.ledger + [Row(lot.account, id, biz, -take, ref)])
  }

  lemma GrantKeepsBalance(db: Db, account: nat, source: Source, amount: int, biz: Biz, ref: int, now: int)
    requires Balanced(db)
    ensures Balanced(Grant(db, account, source, amount, biz, ref, now))
  {
    var db' := Grant(db, account, source, amount, biz, ref, now);
    if amount > 0 {
      var n := |db.lots|;
      var r := db'.ledger[|db.ledger|];
      PostAll(db.ledger, r);
      NoRowsAhead(db, n + 1);
      forall i | 0 <= i < |db'.lots| ensures LotBalances(db', i) {
        if i < n {
          assert LotBalances(db, i);
        }
      }
      forall a ensures AccountBalances(db', a) {
        assert AccountBalances(db, a);
        LotsOfAppend(db.lots, db'.lots[n], a);
      }
    }
  }

  // No row mentions a lot that does not exist yet.
  lemma NoRowsAhead(db: Db, lot: nat)
    requires Balanced(db) && lot > |db.lots|
    ensures Sum(db.ledger, OfLot(lot)) == 0
  {
    NoMatches(db.ledger, OfLot(lot));
  }

  lemma {:induction false} NoMatches(ledger: seq<Row>, k: Key)
    requires forall j :: 0 <= j < |ledger| ==> !Matches(k, ledger[j])
    ensures Sum(ledger, k) == 0 && Count(ledger, k) == 0
  {
    if ledger != [] {
      NoMatches(ledger[..|ledger| - 1], k);
    }
  }

  lemma TakeKeepsBalance(db: Db, id: nat, take: int, biz: Biz, ref: int)
    requires Balanced(db) && 0 < id <= |db.lots| && take <= db.lots[id - 1].remaining
    ensures Balanced(Take(db, id, take, biz, ref))
  {
    var db' := Take(db, id, take, biz, ref);
    var r := db'.ledger[|db.ledger|];
    PostAll(db.ledger, r);
    forall i | 0 <= i < |db'.lots| ensures LotBalances(db', i) {
      assert LotBalances(db, i);
    }
    forall a ensures AccountBalances(db', a) {
      assert AccountBalances(db, a);
      LotsOfUpdate(db.lots, id - 1, db.lots[id - 1].remaining - take, a);
    }
    forall j | 0 <= j < |db'.ledger| ensures RowFits(db'.lots, db'.ledger[j]) {
      if j < |db.ledger| {
        assert RowFits(db.lots, db.ledger[j]);
      }
    }
  }

  // How the primitive writes move the drift.
  lemma GrantDrift(db: Db, account: nat, source: Source, amount: int, biz: Biz, ref: int, now: int)
    ensures Drift(Grant(db, account, source, amount, biz, ref, now))
         == Drift(db) + if amount > 0 && !IsExternal(biz) && !biz.Expire? then amount else 0
  {
    if amount > 0 {
      PostAll(db.ledger, Row(account, |db.lots| + 1, biz, amount, ref));
    }
  }

  lemma TakeDrift(db: Db, id: nat, take: int, biz: Biz, ref: int)
    requires 0 < id <= |db.lots| && !IsExternal(biz)
    ensures Drift(Take(db, id, take, biz, ref)) == Drift(db) - if biz.Expire? then 0 else take
  {
    PostAll(db.ledger, Row(db.lots[id - 1].account, id, biz, -take, ref));
  }
}
