/**
 Expiry (wallet/service.go expireLot, sweepExpired, expireAccountTx; wallet/repo.go expiredLots): due lots are
 zeroed in id order, one ledger row each. A scope of None is the global sweep, Some(a) the lots of account a.
*/
module WalletSweep {
  import opened Wrappers
  import opened Batches
  import opened WalletLedger

  predicate Due(lot: Lot, scope: Option<nat>, now: int) {
    && lot.remaining > 0 && lot.expireAt.Some? && lot.expireAt.value <= now
    && (scope.Some? ==> lot.account == scope.value)
  }

  // The ids the query would return without its limit, ascending.
  function DueIds(lots: seq<Lot>, scope: Option<nat>, now: int): seq<nat> {
    if lots == [] then []
    else
      var r := DueIds(lots[..|lots| - 1], scope, now);
      if Due(lots[|lots| - 1], scope, now) then r + [|lots|] else r
  }

  function ExpireLot(db: Db, id: nat): Db
    requires 0 < id <= |db.lots|
  {
    if db.lots[id - 1].remaining <= 0 then db else Take(db, id, db.lots[id - 1].remaining, Expire, id)
  }

  predicate ValidIds(ids: seq<nat>, size: nat) {
    forall k :: 0 <= k < |ids| ==> 0 < ids[k] <= size
  }

  function ExpireIds(db: Db, ids: seq<nat>): (r: Db)
    requires ValidIds(ids, |db.lots|)
    ensures |r.lots| == |db.lots|
    decreases |ids|
  {
    if ids == [] then db else ExpireIds(ExpireLot(db, ids[0]), ids[1..])
  }

  function Sweep(db: Db, scope: Option<nat>, now: int): Db {
    DueIdsValid(db.lots, scope, now);
    ExpireIds(db, DueIds(db.lots, scope, now))
  }

  lemma {:induction false} DueIdsValid(lots: seq<Lot>, scope: Option<nat>, now: int)
    ensures ValidIds(DueIds(lots, scope, now), |lots|)
    ensures forall k :: 0 <= k < |DueIds(lots, scope, now)| ==> Due(lots[DueIds(lots, scope, now)[k] - 1], scope, now)
  {
    if lots != [] {
      var n := |lots| - 1;
      var r := DueIds(lots[..n], scope, now);
      DueIdsValid(lots[..n], scope, now);
      assert forall k :: 0 <= k < |r| ==> lots[..n][r[k] - 1] == lots[r[k] - 1];
    }
  }

  lemma {:induction false} NoIdsNoneDue(lots: seq<Lot>, scope: Option<nat>, now: int)
    ensures DueIds(lots, scope, now) == [] <==> forall i :: 0 <= i < |lots| ==> !Due(lots[i], scope, now)
  {
    if lots != [] {
      var n := |lots| - 1;
      NoIdsNoneDue(lots[..n], scope, now);
      assert forall i :: 0 <= i < n ==> lots[..n][i] == lots[i];
    }
  }

  // Expiring the first due lot removes it from the query and nothing else.
  lemma {:induction false} ExpireFirst(lots: seq<Lot>, scope: Option<nat>, now: int)
    requires DueIds(lots, scope, now) != []
    ensures var ids := DueIds(lots, scope, now);
            && 0 < ids[0] <= |lots|
            && DueIds(lots[ids[0] - 1 := lots[ids[0] - 1].(remaining := 0)], scope, now) == ids[1..]
  {
    var n := |lots| - 1;
    var front := lots[..n];
    var r := DueIds(front, scope, now);
    var ids := DueIds(lots, scope, now);
    DueIdsValid(lots, scope, now);
    if r == [] {
      var lots' := lots[n := lots[n].(remaining := 0)];
      assert lots'[..n] == front;
    } else {
      DueIdsValid(front, scope, now);
      ExpireFirst(front, scope, now);
      var i := ids[0] - 1;
      assert ids[0] == r[0];
      var lots' := lots[i := lots[i].(remaining := 0)];
      assert lots'[..n] == front[i := front[i].(remaining := 0)];
      assert Due(lots[n], scope, now) ==> (r + [n + 1])[1..] == r[1..] + [n + 1];
    }
  }

  // After a batch of m lots the query returns exactly the rest: the sweep loop makes progress and loses nothing.
  lemma {:induction false} BatchLeavesRest(db: Db, scope: Option<nat>, now: int, m: nat)
    requires m <= |DueIds(db.lots, scope, now)|
    ensures var ids := DueIds(db.lots, scope, now);
            && ValidIds(ids, |db.lots|)
            && DueIds(ExpireIds(db, ids[..m]).lots, scope, now) == ids[m..]
            && Sweep(ExpireIds(db, ids[..m]), scope, now) == Sweep(db, scope, now)
    decreases m
  {
    var ids := DueIds(db.lots, scope, now);
    DueIdsValid(db.lots, scope, now);
    if m > 0 {
      var db1 := ExpireLot(db, ids[0]);
      ExpireFirst(db.lots, scope, now);
      assert Due(db.lots[ids[0] - 1], scope, now);
      assert db1.lots == db.lots[ids[0] - 1 := db.lots[ids[0] - 1].(remaining := 0)];
      BatchLeavesRest(db1, scope, now, m - 1);
      assert ids[..m][1..] == ids[1..][..m - 1];
      assert ids[1..][m - 1..] == ids[m..];
    } else {
      assert ids[..0] == [] && ids[0..] == ids;
    }
  }

  lemma SweepLeavesNoneDue(db: Db, scope: Option<nat>, now: int)
    ensures forall i :: 0 <= i < |Sweep(db, scope, now).lots| ==> !Due(Sweep(db, scope, now).lots[i], scope, now)
  {
    var ids := DueIds(db.lots, scope, now);
    BatchLeavesRest(db, scope, now, |ids|);
    assert ids[..|ids|] == ids;
    NoIdsNoneDue(Sweep(db, scope, now).lots, scope, now);
  }

  // ---------------------------------------------------------------- what a sweep writes

  function ExpireRows(lots: seq<Lot>, ids: seq<nat>): seq<Row>
    requires ValidIds(ids, |lots|)
  {
    if ids == [] then []
    else
      var lot := lots[ids[0] - 1];
      [Row(lot.account, ids[0], Expire, -lot.remaining, ids[0])] + ExpireRows(lots, ids[1..])
  }

  lemma {:induction false} DueIdsAscend(lots: seq<Lot>, scope: Option<nat>, now: int)
    ensures Ascending(DueIds(lots, scope, now))
  {
    if lots != [] {
      var n := |lots| - 1;
      DueIdsAscend(lots[..n], scope, now);
      DueIdsValid(lots[..n], scope, now);
    }
  }

  lemma {:induction false} ExpireRowsFrame(lots: seq<Lot>, lots': seq<Lot>, ids: seq<nat>)
    requires ValidIds(ids, |lots|) && |lots'| == |lots|
    requires forall k :: 0 <= k < |ids| ==> lots'[ids[k] - 1] == lots[ids[k] - 1]
    ensures ExpireRows(lots', ids) == ExpireRows(lots, ids)
  {
    if ids != [] {
      assert forall k :: 0 <= k < |ids| - 1 ==> ids[1..][k] == ids[k + 1];
      ExpireRowsFrame(lots, lots', ids[1..]);
    }
  }

  lemma AscendingTail(ids: seq<nat>)
    requires ids != [] && Ascending(ids)
    ensures Ascending(ids[1..]) && ids[0] !in ids[1..]
    ensures forall k :: 0 <= k < |ids| - 1 ==> ids[1..][k] == ids[k + 1]
  {}

  lemma {:induction false} ExpireIdsLots(db: Db, ids: seq<nat>, i: nat)
    requires ValidIds(ids, |db.lots|) && Ascending(ids) && i < |db.lots|
    requires forall k :: 0 <= k < |ids| ==> db.lots[ids[k] - 1].remaining > 0
    ensures ExpireIds(db, ids).lots[i] == if i + 1 in ids then db.lots[i].(remaining := 0) else db.lots[i]
    decreases |ids|
  {
    if ids != [] {
      AscendingTail(ids);
      ExpireIdsLots(ExpireLot(db, ids[0]), ids[1..], i);
    }
  }

  lemma {:induction false} ExpireIdsLedger(db: Db, ids: seq<nat>)
    requires ValidIds(ids, |db.lots|) && Ascending(ids)
    requires forall k :: 0 <= k < |ids| ==> db.lots[ids[k] - 1].remaining > 0
    ensures ExpireIds(db, ids)
         == db.(lots := ExpireIds(db, ids).lots, ledger := db.ledger + ExpireRows(db.lots, ids))
    decreases |ids|
  {
    if ids != [] {
      var id, tail := ids[0], ids[1..];
      var db1 := ExpireLot(db, id);
      AscendingTail(ids);
      ExpireIdsLedger(db1, tail);
      ExpireRowsFrame(db.lots, db1.lots, tail);
      var row := Row(db.lots[id - 1].account, id, Expire, -db.lots[id - 1].remaining, id);
      assert db.ledger + [row] + ExpireRows(db.lots, tail) == db.ledger + ([row] + ExpireRows(db.lots, tail));
    } else {
      assert db.ledger + [] == db.ledger;
    }
  }

  // Exactly one row per due lot, for its whole remainder, in id order; every other lot is untouched.
  lemma SweepEffect(db: Db, scope: Option<nat>, now: int)
    ensures var ids := DueIds(db.lots, scope, now); var r := Sweep(db, scope, now);
            && ValidIds(ids, |db.lots|) && Ascending(ids)
            && (forall i :: 0 <= i < |db.lots| ==> (i + 1 in ids <==> Due(db.lots[i], scope, now)))
            && r == db.(lots := r.lots, ledger := db.ledger + ExpireRows(db.lots, ids))
            && |r.lots| == |db.lots|
            && (forall i :: 0 <= i < |db.lots| ==>
                  r.lots[i] == if Due(db.lots[i], scope, now) then db.lots[i].(remaining := 0) else db.lots[i])
  {
    var ids := DueIds(db.lots, scope, now);
    DueIdsValid(db.lots, scope, now);
    DueIdsAscend(db.lots, scope, now);
    DueIdsComplete(db.lots, scope, now);
    ExpireIdsLedger(db, ids);
    var r := Sweep(db, scope, now);
    forall i | 0 <= i < |db.lots|
      ensures r.lots[i] == if Due(db.lots[i], scope, now) then db.lots[i].(remaining := 0) else db.lots[i]
    {
      ExpireIdsLots(db, ids, i);
    }
  }

  lemma {:induction false} DueIdsComplete(lots: seq<Lot>, scope: Option<nat>, now: int)
    ensures forall i :: 0 <= i < |lots| ==> (i + 1 in DueIds(lots, scope, now) <==> Due(lots[i], scope, now))
  {
    if lots != [] {
      var n := |lots| - 1;
      DueIdsComplete(lots[..n], scope, now);
      DueIdsValid(lots[..n], scope, now);
      assert forall i :: 0 <= i < n ==> lots[..n][i] == lots[i];
    }
  }

  // ---------------------------------------------------------------- effect on the books

  lemma {:induction false} ExpireIdsKeepsBooks(db: Db, ids: seq<nat>)
    requires Balanced(db) && ValidIds(ids, |db.lots|)
    ensures Balanced(ExpireIds(db, ids)) && Drift(ExpireIds(db, ids)) == Drift(db)
    decreases |ids|
  {
    if ids != [] {
      var lot := db.lots[ids[0] - 1];
      if lot.remaining > 0 {
        TakeKeepsBalance(db, ids[0], lot.remaining, Expire, ids[0]);
        TakeDrift(db, ids[0], lot.remaining, Expire, ids[0]);
      }
      ExpireIdsKeepsBooks(ExpireLot(db, ids[0]), ids[1..]);
    }
  }

  lemma {:induction false} ExpireRowsBiz(lots: seq<Lot>, ids: seq<nat>)
    requires ValidIds(ids, |lots|)
    ensures forall r :: r in ExpireRows(lots, ids) ==> r.biz == Expire
  {
    if ids != [] {
      ExpireRowsBiz(lots, ids[1..]);
    }
  }

  // A sweep keeps the books and writes nothing but expiry rows.
  lemma SweepKeepsBooks(db: Db, scope: Option<nat>, now: int) returns (rows: seq<Row>)
    requires Balanced(db)
    ensures var r := Sweep(db, scope, now);
            && Balanced(r) && Drift(r) == Drift(db) && |r.lots| == |db.lots|
            && r == db.(lots := r.lots, ledger := db.ledger + rows)
    ensures forall j :: 0 <= j < |rows| ==> rows[j].biz == Expire
  {
    var ids := DueIds(db.lots, scope, now);
    SweepEffect(db, scope, now);
    ExpireIdsKeepsBooks(db, ids);
    rows := ExpireRows(db.lots, ids);
    ExpireRowsBiz(db.lots, ids);
  }
}
