/**
 What each wallet operation does to the accounts (wallet/service.go, wallet/rules.go), said in coins per account and
 without the functions that make up the operation.
*/
module WalletEffects {
  import opened Wrappers
  import opened Sorting
  import opened WalletLedger
  import opened WalletSpend
  import opened WalletSweep
  import opened WalletOps
  import opened WalletRun

  // ---------------------------------------------------------------- grants and spends

  lemma GrantMoves(db: Db, account: nat, source: Source, amount: int, biz: Biz, ref: int, now: int, a: nat)
    ensures LotsOf(Grant(db, account, source, amount, biz, ref, now).lots, a)
         == LotsOf(db.lots, a) + if a == account && amount > 0 then amount else 0
  {
    if amount > 0 {
      LotsOfAppend(db.lots, Lot(|db.lots| + 1, account, source, amount, ExpireFor(source, now), now), a);
    }
  }

  lemma {:induction false} SpendFromMoves(db: Db, lots: seq<Lot>, left: int, biz: Biz, ref: int, account: nat, a: nat)
    requires Snapshot(db.lots, lots) && forall k :: 0 <= k < |lots| ==> lots[k].account == account && lots[k].remaining > 0
    requires 0 <= left <= Remaining(lots)
    ensures LotsOf(SpendFrom(db, lots, left, biz, ref).lots, a) == LotsOf(db.lots, a) - if a == account then left else 0
    decreases |lots|
  {
    if lots != [] && left != 0 {
      var lot, take := lots[0], TakeOf(lots[0], left);
      TakeKeepsSnapshot(db, lots, take, biz, ref);
      LotsOfUpdate(db.lots, lot.id - 1, lot.remaining - take, a);
      assert forall k :: 0 <= k < |lots| - 1 ==> lots[1..][k] == lots[k + 1];
      RemainingNonNegative(lots[1..]);
      SpendFromMoves(Take(db, lot.id, take, biz, ref), lots[1..], left - take, biz, ref, account, a);
    }
  }

  // A spend costs its account exactly the amount and nobody else anything.
  lemma SpendMoves(db: Db, account: nat, amount: int, biz: Biz, ref: int, now: int, a: nat)
    requires WellNumbered(db.lots) && Spend(db, account, amount, biz, ref, now).Ok?
    ensures var db' := Spend(db, account, amount, biz, ref, now).value;
            && db' == db.(lots := db'.lots, ledger := db'.ledger)
            && LotsOf(db'.lots, a) == LotsOf(db.lots, a) - if a == account then amount else 0
  {
    var s := AvailableFacts(db.lots, account, now);
    SpendFromMoves(db, s, amount, biz, ref, account, a);
    SpendFromLedger(db, s, amount, biz, ref);
  }

  ghost predicate NoDebt(lots: seq<Lot>) {
    forall i :: 0 <= i < |lots| ==> lots[i].remaining >= 0
  }

  lemma {:induction false} RemainingAppend(lots: seq<Lot>, l: Lot)
    ensures Remaining(lots + [l]) == Remaining(lots) + l.remaining
  {
    if lots == [] {
      assert lots + [l] == [l];
    } else {
      assert (lots + [l])[1..] == lots[1..] + [l];
      RemainingAppend(lots[1..], l);
    }
  }

  lemma {:induction false} SelectedRemaining(lots: seq<Lot>, account: nat, now: int)
    requires NoDebt(lots)
    ensures Remaining(SelectSpendable(lots, account, now)) == Balance(lots, account, now)
  {
    if lots != [] {
      var n := |lots| - 1;
      SelectedRemaining(lots[..n], account, now);
      RemainingAppend(SelectSpendable(lots[..n], account, now), lots[n]);
    }
  }

  lemma {:induction false} InsertKeepsRemaining(x: Lot, s: seq<Lot>)
    ensures Remaining(Insert(x, s, LotBefore)) == x.remaining + Remaining(s)
  {
    if s != [] && !LotBefore(x, s[0]) {
      InsertKeepsRemaining(x, s[1..]);
      assert ([s[0]] + Insert(x, s[1..], LotBefore))[1..] == Insert(x, s[1..], LotBefore);
    } else {
      assert Insert(x, s, LotBefore) == [x] + s && ([x] + s)[1..] == s;
    }
  }

  lemma {:induction false} SortKeepsRemaining(s: seq<Lot>)
    ensures Remaining(Sort(s, LotBefore)) == Remaining(s)
  {
    if s != [] {
      SortKeepsRemaining(s[1..]);
      InsertKeepsRemaining(s[0], Sort(s[1..], LotBefore));
    }
  }

  // It succeeds exactly if the account's unexpired coins cover a positive amount.
  lemma SpendAnswers(db: Db, account: nat, amount: int, biz: Biz, ref: int, now: int)
    requires WellNumbered(db.lots) && NoDebt(db.lots)
    ensures Spend(db, account, amount, biz, ref, now).Ok? <==> 0 < amount <= Balance(db.lots, account, now)
    ensures Spend(db, account, amount, biz, ref, now) == Err(InvalidAmount) <==> amount <= 0
  {
    SelectedRemaining(db.lots, account, now);
    SortKeepsRemaining(SelectSpendable(db.lots, account, now));
  }

  lemma DrainedBefore(s: seq<Lot>, after: seq<Lot>, x: Lot, y: Lot)
    requires Sorted(s, LotBefore) && DrainedInOrder(s, after) && x in s && y in s && !LotBefore(y, x)
    ensures 0 < x.id <= |after| && 0 < y.id <= |after| && (after[y.id - 1] != y ==> after[x.id - 1].remaining == 0)
  {
    var p :| 0 <= p < |s| && s[p] == x;
    var q :| 0 <= q < |s| && s[q] == y;
    assert p != q;
  }

  // Of two lots that can pay, the one that expires earlier is empty before the other is touched.
  lemma EarlierExpiryFirst(db: Db, account: nat, amount: int, biz: Biz, ref: int, now: int, x: Lot, y: Lot)
    requires WellNumbered(db.lots) && Spend(db, account, amount, biz, ref, now).Ok?
    requires x in db.lots && y in db.lots && Spendable(x, account, now) && Spendable(y, account, now)
    requires x.expireAt.Some? && (y.expireAt.None? || x.expireAt.value < y.expireAt.value)
    ensures var after := Spend(db, account, amount, biz, ref, now).value.lots;
            && 0 < x.id <= |after| && 0 < y.id <= |after|
            && (after[y.id - 1] != y ==> after[x.id - 1].remaining == 0)
  {
    AvailableIsSnapshot(db.lots, account, now);
    SpendTouchesAPrefix(db, account, amount, biz, ref, now);
    DrainedBefore(AvailableLots(db.lots, account, now), Spend(db, account, amount, biz, ref, now).value.lots, x, y);
  }

  // ---------------------------------------------------------------- expiry

  // Register gifts live 30 days, check-in and lottery coins 15, tips 90, and recharged coins for ever.
  lemma LotLife(db: Db, account: nat, source: Source, amount: int, biz: Biz, ref: int, now: int, t: int)
    requires amount > 0
    ensures var db' := Grant(db, account, source, amount, biz, ref, now);
            && |db'.lots| == |db.lots| + 1
            && (Alive(db'.lots[|db.lots|], t) <==>
                  match source
                  case FromRegister => t < now + 30 * 86_400_000_000_000
                  case FromCheckin => t < now + 15 * 86_400_000_000_000
                  case FromLottery => t < now + 15 * 86_400_000_000_000
                  case FromTip => t < now + 90 * 86_400_000_000_000
                  case FromRecharge => true)
  {}

  predicate InScope(scope: Option<nat>, a: nat) {
    scope == None || scope == Some(a)
  }

  ghost predicate IsSwept(before: seq<Lot>, after: seq<Lot>, scope: Option<nat>, now: int) {
    && |after| == |before|
    && forall i :: 0 <= i < |before| ==>
         after[i] == if Due(before[i], scope, now) then before[i].(remaining := 0) else before[i]
  }

  lemma {:induction false} SweptBalances(before: seq<Lot>, after: seq<Lot>, scope: Option<nat>, now: int, a: nat, t: int)
    requires IsSwept(before, after, scope, now) && NoDebt(before)
    ensures NoDebt(after)
    ensures LotsOf(after, a) == if InScope(scope, a) then Balance(before, a, now) else LotsOf(before, a)
    ensures t >= now ==> Balance(after, a, t) == Balance(before, a, t)
  {
    if before != [] {
      var n := |before| - 1;
      SweptBalances(before[..n], after[..n], scope, now, a, t);
    }
  }

  // A sweep leaves the accounts in its scope exactly their unexpired coins and costs nobody a coin he could still spend.
  lemma SweepMoves(db: Db, scope: Option<nat>, now: int, a: nat, t: int)
    requires NoDebt(db.lots)
    ensures var swept := Sweep(db, scope, now).lots;
            && NoDebt(swept)
            && LotsOf(swept, a) == (if InScope(scope, a) then Balance(db.lots, a, now) else LotsOf(db.lots, a))
            && (t >= now ==> Balance(swept, a, t) == Balance(db.lots, a, t))
  {
    SweepEffect(db, scope, now);
    SweptBalances(db.lots, Sweep(db, scope, now).lots, scope, now, a, t);
  }

  // ---------------------------------------------------------------- tips

  predicate IsTipOn(t: Tip, from: nat, video: nat) {
    t.from == from && t.video == video
  }

  ghost predicate IsLast(tips: seq<Tip>, from: nat, video: nat, k: nat)
    requires k < |tips|
  {
    IsTipOn(tips[k], from, video) && forall j :: k < j < |tips| ==> !IsTipOn(tips[j], from, video)
  }

  ghost predicate IsLastTip(tips: seq<Tip>, from: nat, video: nat, last: Option<Tip>) {
    match last
    case None => forall j :: 0 <= j < |tips| ==> !IsTipOn(tips[j], from, video)
    case Some(t) => exists k :: 0 <= k < |tips| && tips[k] == t && IsLast(tips, from, video, k)
  }

  // The sender's last tip on this video is less than ten seconds old.
  ghost predicate TooSoon(tips: seq<Tip>, from: nat, video: nat, now: int) {
    exists k :: 0 <= k < |tips| && IsLast(tips, from, video, k) && now - tips[k].createdAt < 10_000_000_000
  }

  lemma {:induction false} LastTipIsLast(tips: seq<Tip>, from: nat, video: nat)
    ensures IsLastTip(tips, from, video, LastTip(tips, from, video))
  {
    if tips != [] {
      var n := |tips| - 1;
      if IsTipOn(tips[n], from, video) {
        assert IsLast(tips, from, video, n);
      } else {
        LastTipIsLast(tips[..n], from, video);
        LastTipCarries(tips, from, video, LastTip(tips[..n], from, video));
      }
    }
  }

  lemma LastTipCarries(tips: seq<Tip>, from: nat, video: nat, last: Option<Tip>)
    requires tips != [] && !IsTipOn(tips[|tips| - 1], from, video) && IsLastTip(tips[..|tips| - 1], from, video, last)
    ensures IsLastTip(tips, from, video, last)
  {
    var n := |tips| - 1;
    var front := tips[..n];
    assert forall j :: 0 <= j < n ==> front[j] == tips[j];
    if last.Some? {
      var k :| 0 <= k < n && front[k] == last.value && IsLast(front, from, video, k);
      assert IsLast(tips, from, video, k);
    }
  }

  lemma TooSoonIff(tips: seq<Tip>, from: nat, video: nat, now: int)
    ensures TooSoon(tips, from, video, now) <==>
              var last := LastTip(tips, from, video); last.Some? && now - last.value.createdAt < 10_000_000_000
  {
    LastTipIsLast(tips, from, video);
    forall j, k | 0 <= j < |tips| && 0 <= k < |tips| && IsLast(tips, from, video, j) && IsLast(tips, from, video, k)
      ensures j == k {
    }
  }

  // A tip goes through exactly if it reaches the minimum, is for somebody else's listed video, does not follow another
  // one too soon, and is covered by what the sender can spend.
  lemma TipAnswers(db: Db, from: nat, video: Option<Video>, videoId: nat, coins: int, now: int, spendAt: int, grantAt: int)
    requires WellNumbered(db.lots) && NoDebt(db.lots) && spendAt >= now
    ensures var r := SendTip(db, from, video, videoId, coins, now, spendAt, grantAt);
            && (r.Ok? <==> && coins >= 10 && video.Some? && video.value.listed && video.value.author != from
                           && !TooSoon(db.tips, from, videoId, now) && coins <= Balance(db.lots, from, spendAt))
            && (r == Err(BadAmount) <==> coins < 10)
            && (r == Err(TipTooFrequent) ==> TooSoon(db.tips, from, videoId, now))
            && (r == Err(NotEnough) ==> coins > Balance(db.lots, from, spendAt))
  {
    var db1 := Sweep(db, Some(from), now);
    SweepEffect(db, Some(from), now);
    SweepMoves(db, Some(from), now, from, spendAt);
    TooSoonIff(db.tips, from, videoId, now);
    SweepNumbering(db, Some(from), now);
    SpendAnswers(db1.(tips := db1.tips + [Tip(from, if video.Some? then video.value.author else 0, videoId, coins,
                                              Received(coins), coins - Received(coins), now)]),
                 from, coins, ConsumeTip, |db1.tips| + 1, spendAt);
  }

  // What a tip booked on these tables does to account a, given the author's share.
  ghost predicate TipMoved(before: Db, after: Db, from: nat, author: nat, coins: int, received: int, a: nat) {
    LotsOf(after.lots, a) == LotsOf(before.lots, a) - (if a == from then coins else 0)
                                                    + (if a == author then received else 0)
  }

  lemma BookTipMoves(db: Db, from: nat, to: nat, video: nat, coins: int, now: int, spendAt: int, grantAt: int)
    returns (received: int)
    requires WellNumbered(db.lots) && coins >= 10 && BookTip(db, from, to, video, coins, now, spendAt, grantAt).Ok?
    ensures 100 * received <= 70 * coins < 100 * (received + 1)
    ensures var db' := BookTip(db, from, to, video, coins, now, spendAt, grantAt).value;
            && (forall a: nat :: TipMoved(db, db', from, to, coins, received, a))
            && PlatformTotal(db'.platform) == PlatformTotal(db.platform) + coins - received
            && db'.tips == db.tips + [Tip(from, to, video, coins, received, coins - received, now)]
            && db'.orders == db.orders && db'.daily == db.daily
  {
    received := Received(coins);
    SharesArePositive(coins);
    var id := |db.tips| + 1;
    var db1 := db.(tips := db.tips + [Tip(from, to, video, coins, received, coins - received, now)]);
    var db2 := Spend(db1, from, coins, ConsumeTip, id, spendAt).value;
    var db' := BookTip(db, from, to, video, coins, now, spendAt, grantAt).value;
    SpendMoves(db1, from, coins, ConsumeTip, id, spendAt, from);
    forall a: nat ensures TipMoved(db, db', from, to, coins, received, a) {
      SpendMoves(db1, from, coins, ConsumeTip, id, spendAt, a);
      GrantMoves(db2, to, FromTip, received, GrantTip, id, grantAt, a);
    }
    assert (db.platform + [PlatformEntry(coins - received, id)])[..|db.platform|] == db.platform;
  }

  ghost predicate SentTipMoved(before: Db, after: Db, op: Op, author: nat, received: int, a: nat)
    requires op.OpTip?
  {
    LotsOf(after.lots, a) == if a == op.from then Balance(before.lots, a, op.now) - op.coins
                             else LotsOf(before.lots, a) + if a == author then received else 0
  }

  lemma SentTipMoves(db: Db, op: Op, db': Db) returns (received: int)
    requires op.OpTip? && WellNumbered(db.lots) && NoDebt(db.lots)
    requires SendTip(db, op.from, op.video, op.videoId, op.coins, op.now, op.spendAt, op.grantAt) == Ok(db')
    ensures 100 * received <= 70 * op.coins < 100 * (received + 1)
    ensures op.video.Some? && op.video.value.author != op.from
    ensures forall a: nat :: SentTipMoved(db, db', op, op.video.value.author, received, a)
    ensures PlatformTotal(db'.platform) == PlatformTotal(db.platform) + op.coins - received
  {
    var db1, author := Sweep(db, Some(op.from), op.now), op.video.value.author;
    SweepEffect(db, Some(op.from), op.now);
    SweepNumbering(db, Some(op.from), op.now);
    received := BookTipMoves(db1, op.from, author, op.videoId, op.coins, op.now, op.spendAt, op.grantAt);
    forall a: nat ensures SentTipMoved(db, db', op, author, received, a) {
      SweepMoves(db, Some(op.from), op.now, a, op.now);
      assert TipMoved(db1, db', op.from, author, op.coins, received, a);
    }
  }

  // A tip that goes through leaves the sender his unexpired coins less the tip, brings the video's author 70% of it,
  // rounded down, the platform the rest, and nobody else anything; a refused one changes nothing.
  lemma TipMoves(db: Db, op: Op) returns (received: int)
    requires op.OpTip? && WellNumbered(db.lots) && NoDebt(db.lots)
    ensures var r := SendTip(db, op.from, op.video, op.videoId, op.coins, op.now, op.spendAt, op.grantAt);
            if r.Err? then Step(db, op) == db else TipPaid(db, Step(db, op), op, received)
  {
    var r := SendTip(db, op.from, op.video, op.videoId, op.coins, op.now, op.spendAt, op.grantAt);
    if r.Ok? {
      received := SentTipMoves(db, op, r.value);
      assert SentTipMoved(db, r.value, op, op.video.value.author, received, op.from);
      assert SentTipMoved(db, r.value, op, op.video.value.author, received, op.video.value.author);
      forall a: nat | a != op.from && a != op.video.value.author
        ensures LotsOf(r.value.lots, a) == LotsOf(db.lots, a) {
        assert SentTipMoved(db, r.value, op, op.video.value.author, received, a);
      }
    } else {
      received := 0;
    }
  }

  ghost predicate TipPaid(before: Db, after: Db, op: Op, received: int)
    requires op.OpTip?
  {
    && 100 * received <= 70 * op.coins < 100 * (received + 1)
    && op.video.Some? && op.video.value.author != op.from
    && LotsOf(after.lots, op.from) == Balance(before.lots, op.from, op.now) - op.coins
    && LotsOf(after.lots, op.video.value.author) == LotsOf(before.lots, op.video.value.author) + received
    && (forall a: nat :: a != op.from && a != op.video.value.author ==> LotsOf(after.lots, a) == LotsOf(before.lots, a))
    && PlatformTotal(after.platform) == PlatformTotal(before.platform) + op.coins - received
  }
}
