/**
 Spending (wallet/service.go spendInTx, wallet/repo.go availableLots): lots are taken in order of expiry. The main
 result is that no other way of taking the same amount leaves more coins alive at any later instant.
*/
module WalletSpend {
  import opened Wrappers
  import opened Sorting
  import opened WalletLedger

  datatype SpendError = InvalidAmount | Insufficient

  // expire_at IS NULL OR expire_at > t
  predicate Alive(lot: Lot, t: int) {
    lot.expireAt.None? || lot.expireAt.value > t
  }

  predicate Spendable(lot: Lot, account: nat, now: int) {
    lot.account == account && lot.remaining > 0 && Alive(lot, now)
  }

  // ORDER BY (expire_at IS NULL), expire_at, created_at, id
  predicate LotBefore(a: Lot, b: Lot) {
    if a.expireAt.Some? != b.expireAt.Some? then a.expireAt.Some?
    else if a.expireAt != b.expireAt then a.expireAt.value < b.expireAt.value
    else if a.createdAt != b.createdAt then a.createdAt < b.createdAt
    else a.id <= b.id
  }

  lemma LotOrderIsTotal()
    ensures TotalOrder(LotBefore)
  {}

  function SelectSpendable(lots: seq<Lot>, account: nat, now: int): seq<Lot> {
    if lots == [] then []
    else
      var r := SelectSpendable(lots[..|lots| - 1], account, now);
      var last := lots[|lots| - 1];
      if Spendable(last, account, now) then r + [last] else r
  }

  function AvailableLots(lots: seq<Lot>, account: nat, now: int): seq<Lot> {
    Sort(SelectSpendable(lots, account, now), LotBefore)
  }

  function Remaining(lots: seq<Lot>): int {
    if lots == [] then 0 else lots[0].remaining + Remaining(lots[1..])
  }

  // The spending loop over the rows the query returned.
  function SpendFrom(db: Db, lots: seq<Lot>, left: int, biz: Biz, ref: int): Db
    requires Snapshot(db.lots, lots)
    decreases |lots|
  {
    if lots == [] || left == 0 then db
    else
      var lot, take := lots[0], TakeOf(lots[0], left);
      TakeKeepsSnapshot(db, lots, take, biz, ref);
      SpendFrom(Take(db, lot.id, take, biz, ref), lots[1..], left - take, biz, ref)
  }

  function Spend(db: Db, account: nat, amount: int, biz: Biz, ref: int, now: int): Result<Db, SpendError>
    requires WellNumbered(db.lots)
  {
    var lots := AvailableLots(db.lots, account, now);
    if amount <= 0 then Err(InvalidAmount)
    else if Remaining(lots) < amount then Err(Insufficient)
    else
      AvailableIsSnapshot(db.lots, account, now);
      Ok(SpendFrom(db, lots, amount, biz, ref))
  }

  // ---------------------------------------------------------------- the rows a query returned match the table

  ghost predicate WellNumbered(lots: seq<Lot>) {
    forall i :: 0 <= i < |lots| ==> lots[i].id == i + 1
  }

  ghost predicate Snapshot(table: seq<Lot>, lots: seq<Lot>) {
    && (forall k :: 0 <= k < |lots| ==> 0 < lots[k].id <= |table| && table[lots[k].id - 1] == lots[k])
    && (forall j, k :: 0 <= j < k < |lots| ==> lots[j].id != lots[k].id)
  }

  lemma TakeKeepsSnapshot(db: Db, lots: seq<Lot>, take: int, biz: Biz, ref: int)
    requires Snapshot(db.lots, lots) && lots != []
    ensures Snapshot(Take(db, lots[0].id, take, biz, ref).lots, lots[1..])
  {
    var tail := lots[1..];
    forall k | 0 <= k < |tail| ensures tail[k] == lots[k + 1] && tail[k].id != lots[0].id {}
    forall j, k | 0 <= j < k < |tail| ensures tail[j].id != tail[k].id {
      assert tail[j] == lots[j + 1] && tail[k] == lots[k + 1];
    }
  }

  lemma {:induction false} SelectSnapshot(lots: seq<Lot>, account: nat, now: int)
    requires WellNumbered(lots)
    ensures Snapshot(lots, SelectSpendable(lots, account, now))
  {
    if lots != [] {
      var n := |lots| - 1;
      var r := SelectSpendable(lots[..n], account, now);
      SelectSnapshot(lots[..n], account, now);
      SnapshotExtends(lots, r);
    }
  }

  lemma SnapshotExtends(lots: seq<Lot>, r: seq<Lot>)
    requires WellNumbered(lots) && lots != [] && Snapshot(lots[..|lots| - 1], r)
    ensures Snapshot(lots, r) && Snapshot(lots, r + [lots[|lots| - 1]])
  {
    var n := |lots| - 1;
    forall k | 0 <= k < |r| ensures 0 < r[k].id <= n && lots[r[k].id - 1] == r[k] {
      assert lots[..n][r[k].id - 1] == r[k];
    }
  }

  lemma {:induction false} SelectMembers(lots: seq<Lot>, account: nat, now: int)
    ensures forall x :: x in SelectSpendable(lots, account, now) <==> x in lots && Spendable(x, account, now)
  {
    if lots != [] {
      var n := |lots| - 1;
      SelectMembers(lots[..n], account, now);
      assert lots == lots[..n] + [lots[n]];
    }
  }

  ghost predicate DistinctIds(lots: seq<Lot>) {
    forall j, k :: 0 <= j < k < |lots| ==> lots[j].id != lots[k].id
  }

  lemma {:induction false} InsertKeepsDistinct(x: Lot, s: seq<Lot>)
    requires DistinctIds(s) && forall y :: y in s ==> y.id != x.id
    ensures DistinctIds(Insert(x, s, LotBefore))
  {
    if s != [] && !LotBefore(x, s[0]) {
      assert forall k :: 0 <= k < |s| - 1 ==> s[1..][k] == s[k + 1];
      InsertKeepsDistinct(x, s[1..]);
      InsertPermutes(x, s[1..], LotBefore);
      var r := Insert(x, s[1..], LotBefore);
      forall k | 0 <= k < |r| ensures r[k].id != s[0].id {
        assert r[k] in multiset(r);
      }
    }
  }

  lemma {:induction false} SortKeepsDistinct(s: seq<Lot>)
    requires DistinctIds(s)
    ensures DistinctIds(Sort(s, LotBefore))
  {
    if s != [] {
      assert forall k :: 0 <= k < |s| - 1 ==> s[1..][k] == s[k + 1];
      SortKeepsDistinct(s[1..]);
      SortMembers(s[1..], LotBefore);
      InsertKeepsDistinct(s[0], Sort(s[1..], LotBefore));
    }
  }

  // The sorted query result: exactly the spendable rows, each once, in expiry order.
  lemma AvailableIsSnapshot(lots: seq<Lot>, account: nat, now: int)
    requires WellNumbered(lots)
    ensures var s := AvailableLots(lots, account, now);
            && Snapshot(lots, s) && Sorted(s, LotBefore)
            && forall x :: x in s <==> x in lots && Spendable(x, account, now)
  {
    var s := SelectSpendable(lots, account, now);
    SelectSnapshot(lots, account, now);
    SelectMembers(lots, account, now);
    SortKeepsDistinct(s);
    SortMembers(s, LotBefore);
    LotOrderIsTotal();
    SortSorted(s, LotBefore);
    var r := Sort(s, LotBefore);
    forall k | 0 <= k < |r| ensures 0 < r[k].id <= |lots| && lots[r[k].id - 1] == r[k] {
      assert r[k] in s;
    }
  }

  // ---------------------------------------------------------------- balances at an instant

  // What an account still owns at instant t.
  function Balance(lots: seq<Lot>, account: nat, t: int): int {
    if lots == [] then 0
    else
      var last := lots[|lots| - 1];
      Balance(lots[..|lots| - 1], account, t) + if last.account == account && Alive(last, t) then last.remaining else 0
  }

  // Of the given lots, the coins that will have expired by t.
  function Dying(lots: seq<Lot>, t: int): int {
    if lots == [] then 0 else (if Alive(lots[0], t) then 0 else lots[0].remaining) + Dying(lots[1..], t)
  }

  lemma {:induction false} BalanceUpdate(lots: seq<Lot>, i: nat, remaining: int, account: nat, t: int)
    requires i < |lots|
    ensures Balance(lots[i := lots[i].(remaining := remaining)], account, t)
         == Balance(lots, account, t)
            + if lots[i].account == account && Alive(lots[i], t) then remaining - lots[i].remaining else 0
  {
    var n := |lots| - 1;
    var lots' := lots[i := lots[i].(remaining := remaining)];
    if i < n {
      BalanceUpdate(lots[..n], i, remaining, account, t);
      assert lots'[..n] == lots[..n][i := lots[i].(remaining := remaining)];
    } else {
      assert lots'[..n] == lots[..n];
    }
  }

  lemma {:induction false} DyingNonNegative(lots: seq<Lot>, t: int)
    requires forall x :: x in lots ==> x.remaining > 0
    ensures Dying(lots, t) >= 0
    ensures (forall x :: x in lots ==> Alive(x, t)) ==> Dying(lots, t) == 0
  {
    if lots != [] {
      DyingNonNegative(lots[1..], t);
    }
  }

  // In expiry order, once a lot is alive at t so are all lots after it.
  lemma AliveFromHere(lots: seq<Lot>, t: int)
    requires lots != [] && Sorted(lots, LotBefore) && Alive(lots[0], t)
    ensures forall x :: x in lots ==> Alive(x, t)
  {
    forall x | x in lots ensures Alive(x, t) {
      var k :| 0 <= k < |lots| && lots[k] == x;
      assert k == 0 || LotBefore(lots[0], lots[k]);
    }
  }

  function Max0(x: int): nat {
    if x > 0 then x else 0
  }

  function TakeOf(lot: Lot, left: int): int {
    if lot.remaining > left then left else lot.remaining
  }

  // What the loop takes from lots that are still alive at t.
  function AliveTakes(lots: seq<Lot>, left: int, t: int): int {
    if lots == [] || left == 0 then 0
    else
      var take := TakeOf(lots[0], left);
      (if Alive(lots[0], t) then take else 0) + AliveTakes(lots[1..], left - take, t)
  }

  lemma {:induction false} SpendFromBalance(db: Db, lots: seq<Lot>, left: int, biz: Biz, ref: int, account: nat, t: int)
    requires Snapshot(db.lots, lots) && forall k :: 0 <= k < |lots| ==> lots[k].account == account
    ensures Balance(SpendFrom(db, lots, left, biz, ref).lots, account, t)
         == Balance(db.lots, account, t) - AliveTakes(lots, left, t)
    decreases |lots|
  {
    if lots != [] && left != 0 {
      var lot, take := lots[0], TakeOf(lots[0], left);
      TakeKeepsSnapshot(db, lots, take, biz, ref);
      BalanceUpdate(db.lots, lot.id - 1, lot.remaining - take, account, t);
      assert forall k :: 0 <= k < |lots| - 1 ==> lots[1..][k] == lots[k + 1];
      SpendFromBalance(Take(db, lot.id, take, biz, ref), lots[1..], left - take, biz, ref, account, t);
    }
  }

  // In expiry order the alive lots pay only what the dying ones could not cover.
  lemma {:induction false} AliveTakesCost(lots: seq<Lot>, left: int, t: int)
    requires Sorted(lots, LotBefore) && 0 <= left <= Remaining(lots)
    requires forall x :: x in lots ==> x.remaining > 0
    ensures AliveTakes(lots, left, t) == Max0(left - Dying(lots, t))
  {
    DyingNonNegative(lots, t);
    if lots != [] && left != 0 {
      SortedTail(lots, LotBefore);
      DyingNonNegative(lots[1..], t);
      RemainingNonNegative(lots[1..]);
      if Alive(lots[0], t) {
        AliveFromHere(lots, t);
      }
      AliveTakesCost(lots[1..], left - TakeOf(lots[0], left), t);
    }
  }

  lemma {:induction false} RemainingNonNegative(lots: seq<Lot>)
    requires forall x :: x in lots ==> x.remaining > 0
    ensures Remaining(lots) >= 0
  {
    if lots != [] {
      RemainingNonNegative(lots[1..]);
    }
  }

  // ---------------------------------------------------------------- any other way of taking the same amount

  // An allocation takes a feasible number of coins from each row of the table.
  ghost predicate Feasible(lots: seq<Lot>, takes: seq<int>, account: nat, now: int) {
    && |takes| == |lots|
    && forall i :: 0 <= i < |lots| ==>
         && 0 <= takes[i]
         && (takes[i] > 0 ==> Spendable(lots[i], account, now) && takes[i] <= lots[i].remaining)
  }

  function Total(takes: seq<int>): int {
    if takes == [] then 0 else Total(takes[..|takes| - 1]) + takes[|takes| - 1]
  }

  function Allocate(lots: seq<Lot>, takes: seq<int>): seq<Lot>
    requires |takes| == |lots|
  {
    if lots == [] then []
    else
      var n := |lots| - 1;
      Allocate(lots[..n], takes[..n]) + [lots[n].(remaining := lots[n].remaining - takes[n])]
  }

  // Of an account's spendable coins, those that will have expired by t.
  function DyingOf(lots: seq<Lot>, account: nat, now: int, t: int): int {
    if lots == [] then 0
    else
      var last := lots[|lots| - 1];
      DyingOf(lots[..|lots| - 1], account, now, t)
      + if Spendable(last, account, now) && !Alive(last, t) then last.remaining else 0
  }

  // Whatever an allocation does not take from dying lots it takes from the balance at t.
  lemma {:induction false} AllocationCost(lots: seq<Lot>, takes: seq<int>, account: nat, now: int, t: int)
    requires Feasible(lots, takes, account, now)
    ensures Balance(Allocate(lots, takes), account, t)
         <= Balance(lots, account, t) - Max0(Total(takes) - DyingOf(lots, account, now, t))
    ensures DyingOf(lots, account, now, t) >= 0
  {
    if lots != [] {
      var n := |lots| - 1;
      AllocationCost(lots[..n], takes[..n], account, now, t);
      var rest := Allocate(lots[..n], takes[..n]);
      assert Allocate(lots, takes)[..|rest|] == rest;
    }
  }

  lemma {:induction false} InsertKeepsDying(x: Lot, s: seq<Lot>, t: int)
    ensures Dying(Insert(x, s, LotBefore), t) == Dying([x] + s, t)
  {
    assert ([x] + s)[1..] == s;
    if s != [] && !LotBefore(x, s[0]) {
      InsertKeepsDying(x, s[1..], t);
      assert ([x] + s[1..])[1..] == s[1..];
    }
  }

  lemma {:induction false} SortKeepsDying(s: seq<Lot>, t: int)
    ensures Dying(Sort(s, LotBefore), t) == Dying(s, t)
  {
    if s != [] {
      SortKeepsDying(s[1..], t);
      InsertKeepsDying(s[0], Sort(s[1..], LotBefore), t);
      assert ([s[0]] + Sort(s[1..], LotBefore))[1..] == Sort(s[1..], LotBefore);
    }
  }

  lemma {:induction false} DyingAppend(s: seq<Lot>, x: Lot, t: int)
    ensures Dying(s + [x], t) == Dying(s, t) + if Alive(x, t) then 0 else x.remaining
  {
    if s == [] {
      assert s + [x] == [x];
      assert [x][1..] == [];
    } else {
      DyingAppend(s[1..], x, t);
      assert (s + [x])[1..] == s[1..] + [x];
    }
  }

  lemma {:induction false} SelectedDying(lots: seq<Lot>, account: nat, now: int, t: int)
    ensures Dying(SelectSpendable(lots, account, now), t) == DyingOf(lots, account, now, t)
  {
    if lots != [] {
      var n := |lots| - 1;
      SelectedDying(lots[..n], account, now, t);
      DyingAppend(SelectSpendable(lots[..n], account, now), lots[n], t);
    }
  }

  // Earliest-expiry-first is optimal at every later instant at once.
  lemma SpendingIsOptimal(db: Db, account: nat, amount: int, biz: Biz, ref: int, now: int, takes: seq<int>, t: int)
    requires WellNumbered(db.lots) && Spend(db, account, amount, biz, ref, now).Ok?
    requires Feasible(db.lots, takes, account, now) && Total(takes) == amount
    ensures Balance(Spend(db, account, amount, biz, ref, now).value.lots, account, t)
         >= Balance(Allocate(db.lots, takes), account, t)
  {
    OptimalCost(db, account, amount, biz, ref, now, t);
    AllocationCost(db.lots, takes, account, now, t);
  }

  lemma OptimalCost(db: Db, account: nat, amount: int, biz: Biz, ref: int, now: int, t: int)
    requires WellNumbered(db.lots) && Spend(db, account, amount, biz, ref, now).Ok?
    ensures Balance(Spend(db, account, amount, biz, ref, now).value.lots, account, t)
         == Balance(db.lots, account, t) - Max0(amount - DyingOf(db.lots, account, now, t))
  {
    var s := AvailableFacts(db.lots, account, now);
    AvailableDying(db.lots, account, now, t);
    SpendFromBalance(db, s, amount, biz, ref, account, t);
    AliveTakesCost(s, amount, t);
  }

  lemma AvailableDying(lots: seq<Lot>, account: nat, now: int, t: int)
    ensures Dying(AvailableLots(lots, account, now), t) == DyingOf(lots, account, now, t)
  {
    SortKeepsDying(SelectSpendable(lots, account, now), t);
    SelectedDying(lots, account, now, t);
  }

  // The query result with what the spending loop needs to know about each row.
  lemma AvailableFacts(lots: seq<Lot>, account: nat, now: int) returns (s: seq<Lot>)
    requires WellNumbered(lots)
    ensures s == AvailableLots(lots, account, now) && Snapshot(lots, s) && Sorted(s, LotBefore)
    ensures forall k :: 0 <= k < |s| ==> s[k].account == account && s[k].remaining > 0
    ensures forall i :: 0 <= i < |lots| && !Spendable(lots[i], account, now)
              ==> forall k :: 0 <= k < |s| ==> s[k].id != i + 1
  {
    s := AvailableLots(lots, account, now);
    AvailableIsSnapshot(lots, account, now);
    forall k | 0 <= k < |s| ensures Spendable(s[k], account, now) {
      assert s[k] in s;
    }
  }

  // ---------------------------------------------------------------- shape of a spend

  // What the loop takes from the k-th row.
  function TakeAt(lots: seq<Lot>, left: int, k: nat): int
    requires k < |lots|
  {
    if left == 0 then 0
    else
      var take := TakeOf(lots[0], left);
      if k == 0 then take else TakeAt(lots[1..], left - take, k - 1)
  }

  lemma {:induction false} SpendFromRows(db: Db, lots: seq<Lot>, left: int, biz: Biz, ref: int, i: nat)
    requires Snapshot(db.lots, lots) && i < |db.lots|
    ensures var after := SpendFrom(db, lots, left, biz, ref).lots;
            && |after| == |db.lots|
            && ((forall k :: 0 <= k < |lots| ==> lots[k].id != i + 1) ==> after[i] == db.lots[i])
            && (forall k :: 0 <= k < |lots| && lots[k].id == i + 1
                  ==> after[i] == lots[k].(remaining := lots[k].remaining - TakeAt(lots, left, k)))
    decreases |lots|
  {
    if lots != [] && left != 0 {
      var lot, tail, take := lots[0], lots[1..], TakeOf(lots[0], left);
      TakeKeepsSnapshot(db, lots, take, biz, ref);
      var mid := Take(db, lot.id, take, biz, ref);
      assert forall k :: 0 <= k < |tail| ==> tail[k] == lots[k + 1];
      assert forall k :: 0 < k < |lots| ==> lots[k] == tail[k - 1];
      SpendFromRows(mid, tail, left - take, biz, ref, i);
    }
  }

  // A row is touched only after every row before it has been emptied.
  lemma {:induction false} TakesFillAPrefix(lots: seq<Lot>, left: int, j: nat, k: nat)
    requires j < k < |lots| && left >= 0
    requires forall x :: x in lots ==> x.remaining > 0
    ensures 0 <= TakeAt(lots, left, k) <= lots[k].remaining
    ensures TakeAt(lots, left, k) > 0 ==> TakeAt(lots, left, j) == lots[j].remaining
  {
    if left != 0 {
      var take := TakeOf(lots[0], left);
      if j > 0 {
        TakesFillAPrefix(lots[1..], left - take, j - 1, k - 1);
      } else if k > 1 {
        TakesFillAPrefix(lots[1..], left - take, 0, k - 1);
      } else {
        assert lots[1] in lots;
      }
    } else {
      assert lots[k] in lots;
    }
  }

  ghost predicate OnlySpendableChange(before: seq<Lot>, after: seq<Lot>, account: nat, now: int) {
    && |after| == |before|
    && forall i :: 0 <= i < |before| && !Spendable(before[i], account, now) ==> after[i] == before[i]
  }

  // A row of the query result differs from the table only if every row before it is empty there.
  ghost predicate DrainedInOrder(s: seq<Lot>, after: seq<Lot>) {
    && (forall k :: 0 <= k < |s| ==> 0 < s[k].id <= |after|)
    && forall j, k :: 0 <= j < k < |s| && after[s[k].id - 1] != s[k] ==> after[s[j].id - 1].remaining == 0
  }

  // Only spendable rows change; they are drawn on in expiry order and all but the last touched are emptied.
  lemma SpendTouchesAPrefix(db: Db, account: nat, amount: int, biz: Biz, ref: int, now: int)
    requires WellNumbered(db.lots) && Spend(db, account, amount, biz, ref, now).Ok?
    ensures OnlySpendableChange(db.lots, Spend(db, account, amount, biz, ref, now).value.lots, account, now)
    ensures DrainedInOrder(AvailableLots(db.lots, account, now), Spend(db, account, amount, biz, ref, now).value.lots)
  {
    var s := AvailableFacts(db.lots, account, now);
    OthersUntouched(db, s, amount, biz, ref, account, now);
    DrainsInOrder(db, s, amount, biz, ref);
  }

  lemma OthersUntouched(db: Db, s: seq<Lot>, left: int, biz: Biz, ref: int, account: nat, now: int)
    requires Snapshot(db.lots, s)
    requires forall i :: 0 <= i < |db.lots| && !Spendable(db.lots[i], account, now)
               ==> forall k :: 0 <= k < |s| ==> s[k].id != i + 1
    ensures OnlySpendableChange(db.lots, SpendFrom(db, s, left, biz, ref).lots, account, now)
  {
    var after := SpendFrom(db, s, left, biz, ref).lots;
    SpendFromLedger(db, s, left, biz, ref);
    forall i | 0 <= i < |db.lots| && !Spendable(db.lots[i], account, now) ensures after[i] == db.lots[i] {
      SpendFromRows(db, s, left, biz, ref, i);
    }
  }

  lemma DrainsInOrder(db: Db, s: seq<Lot>, left: int, biz: Biz, ref: int)
    requires Snapshot(db.lots, s) && left >= 0 && forall k :: 0 <= k < |s| ==> s[k].remaining > 0
    ensures DrainedInOrder(s, SpendFrom(db, s, left, biz, ref).lots)
  {
    var after := SpendFrom(db, s, left, biz, ref).lots;
    SpendFromLedger(db, s, left, biz, ref);
    forall j, k | 0 <= j < k < |s| && after[s[k].id - 1] != s[k] ensures after[s[j].id - 1].remaining == 0 {
      TouchedAfterEmptied(db, s, left, biz, ref, j, k);
    }
  }

  lemma AfterSpend(db: Db, s: seq<Lot>, left: int, biz: Biz, ref: int, k: nat)
    requires Snapshot(db.lots, s) && k < |s|
    ensures var after := SpendFrom(db, s, left, biz, ref).lots;
            && |after| == |db.lots|
            && after[s[k].id - 1] == s[k].(remaining := s[k].remaining - TakeAt(s, left, k))
  {
    SpendFromRows(db, s, left, biz, ref, s[k].id - 1);
  }

  lemma TouchedAfterEmptied(db: Db, s: seq<Lot>, left: int, biz: Biz, ref: int, j: nat, k: nat)
    requires Snapshot(db.lots, s) && j < k < |s| && left >= 0
    requires forall x :: x in s ==> x.remaining > 0
    ensures var after := SpendFrom(db, s, left, biz, ref).lots;
            && |after| == |db.lots|
            && (after[s[k].id - 1] != s[k] ==> after[s[j].id - 1].remaining == 0)
  {
    AfterSpend(db, s, left, biz, ref, j);
    AfterSpend(db, s, left, biz, ref, k);
    TakesFillAPrefix(s, left, j, k);
  }

  // ---------------------------------------------------------------- effect on the books

  function SpendRows(lots: seq<Lot>, left: int, biz: Biz, ref: int): seq<Row> {
    if lots == [] || left == 0 then []
    else
      var lot, take := lots[0], TakeOf(lots[0], left);
      [Row(lot.account, lot.id, biz, -take, ref)] + SpendRows(lots[1..], left - take, biz, ref)
  }

  // One round of the draining loop.
  lemma DrainStep(db: Db, lots: seq<Lot>, left: int, biz: Biz, ref: int)
    requires Snapshot(db.lots, lots) && lots != [] && left != 0
    ensures var take := TakeOf(lots[0], left);
            && 0 < lots[0].id <= |db.lots|
            && Snapshot(Take(db, lots[0].id, take, biz, ref).lots, lots[1..])
            && SpendFrom(Take(db, lots[0].id, take, biz, ref), lots[1..], left - take, biz, ref)
                 == SpendFrom(db, lots, left, biz, ref)
  {
    TakeKeepsSnapshot(db, lots, TakeOf(lots[0], left), biz, ref);
  }

  // Only lots and ledger have moved, the ledger by these rows.
  predicate Grown(before: Db, after: Db, rows: seq<Row>) {
    after == before.(lots := after.lots, ledger := before.ledger + rows) && |after.lots| == |before.lots|
  }

  lemma OneMoreRow(db: Db, mid: Db, end: Db, row: Row, rows: seq<Row>)
    requires Grown(db, mid, [row]) && Grown(mid, end, rows)
    ensures Grown(db, end, [row] + rows)
  {
    assert db.ledger + [row] + rows == db.ledger + ([row] + rows);
  }

  lemma {:induction false} SpendFromLedger(db: Db, lots: seq<Lot>, left: int, biz: Biz, ref: int)
    requires Snapshot(db.lots, lots)
    ensures Grown(db, SpendFrom(db, lots, left, biz, ref), SpendRows(lots, left, biz, ref))
    decreases |lots|
  {
    if lots != [] && left != 0 {
      var lot, take := lots[0], TakeOf(lots[0], left);
      DrainStep(db, lots, left, biz, ref);
      var mid := Take(db, lot.id, take, biz, ref);
      SpendFromLedger(mid, lots[1..], left - take, biz, ref);
      var row := Row(lot.account, lot.id, biz, -take, ref);
      OneMoreRow(db, mid, SpendFrom(mid, lots[1..], left - take, biz, ref), row,
                 SpendRows(lots[1..], left - take, biz, ref));
    } else {
      assert db.ledger + [] == db.ledger;
    }
  }

  lemma {:induction false} SpendRowsRefs(lots: seq<Lot>, left: int, biz: Biz, ref: int)
    ensures forall r :: r in SpendRows(lots, left, biz, ref) ==> r.biz == biz && r.ref == ref
  {
    if lots != [] && left != 0 {
      SpendRowsRefs(lots[1..], left - TakeOf(lots[0], left), biz, ref);
    }
  }

  lemma {:induction false} SpendRowsAccount(lots: seq<Lot>, left: int, biz: Biz, ref: int, account: nat)
    requires forall k :: 0 <= k < |lots| ==> lots[k].account == account
    ensures forall r :: r in SpendRows(lots, left, biz, ref) ==> r.account == account
  {
    if lots != [] && left != 0 {
      SpendRowsAccount(lots[1..], left - TakeOf(lots[0], left), biz, ref, account);
    }
  }

  lemma {:induction false} SpendRowsSum(lots: seq<Lot>, left: int, biz: Biz, ref: int, k: Key)
    requires 0 <= left <= Remaining(lots) && k in {All, OfRef(biz, ref)}
    requires forall x :: x in lots ==> x.remaining > 0
    ensures Sum(SpendRows(lots, left, biz, ref), k) == -left
  {
    if lots != [] && left != 0 {
      var lot, take := lots[0], TakeOf(lots[0], left);
      RemainingNonNegative(lots[1..]);
      SpendRowsSum(lots[1..], left - take, biz, ref, k);
      SumCons(Row(lot.account, lot.id, biz, -take, ref), SpendRows(lots[1..], left - take, biz, ref), k);
    }
  }

  lemma {:induction false} SpendFromBalanced(db: Db, lots: seq<Lot>, left: int, biz: Biz, ref: int)
    requires Balanced(db) && Snapshot(db.lots, lots) && left >= 0
    ensures Balanced(SpendFrom(db, lots, left, biz, ref))
    decreases |lots|
  {
    if lots != [] && left != 0 {
      var lot, take := lots[0], TakeOf(lots[0], left);
      TakeKeepsSnapshot(db, lots, take, biz, ref);
      TakeKeepsBalance(db, lot.id, take, biz, ref);
      SpendFromBalanced(Take(db, lot.id, take, biz, ref), lots[1..], left - take, biz, ref);
    }
  }

  lemma BalancedIsWellNumbered(db: Db)
    requires Balanced(db)
    ensures WellNumbered(db.lots)
  {
    forall i | 0 <= i < |db.lots| ensures db.lots[i].id == i + 1 {
      assert LotBalances(db, i);
    }
  }

  // A spend keeps the books balanced and books exactly the amount, under its own reference and on its own account only.
  lemma SpendKeepsBooks(db: Db, account: nat, amount: int, biz: Biz, ref: int, now: int) returns (rows: seq<Row>)
    requires Balanced(db) && WellNumbered(db.lots) && Spend(db, account, amount, biz, ref, now).Ok?
    requires !IsExternal(biz) && !biz.Expire?
    ensures var db' := Spend(db, account, amount, biz, ref, now).value;
            && Balanced(db') && Drift(db') == Drift(db) - amount
            && db' == db.(lots := db'.lots, ledger := db.ledger + rows) && |db'.lots| == |db.lots|
    ensures Sum(rows, OfRef(biz, ref)) == -amount
    ensures forall j :: 0 <= j < |rows| ==> rows[j].biz == biz && rows[j].ref == ref && rows[j].account == account
  {
    var s := AvailableFacts(db.lots, account, now);
    AvailableIsSnapshot(db.lots, account, now);
    SpendRowsAccount(s, amount, biz, ref, account);
    rows := SpendRows(s, amount, biz, ref);
    SpendFromLedger(db, s, amount, biz, ref);
    SpendRowsRefs(s, amount, biz, ref);
    SpendRowsSum(s, amount, biz, ref, All);
    SpendRowsSum(s, amount, biz, ref, OfRef(biz, ref));
    SpendFromBalanced(db, s, amount, biz, ref);
    InternalRowsDrift(db, SpendFrom(db, s, amount, biz, ref), rows);
  }

  // Rows that neither come from outside nor expire move the drift by their sum.
  lemma InternalRowsDrift(db: Db, db': Db, rows: seq<Row>)
    requires db'.ledger == db.ledger + rows && db'.platform == db.platform
    requires forall j :: 0 <= j < |rows| ==> !IsExternal(rows[j].biz) && !rows[j].biz.Expire?
    ensures Drift(db') == Drift(db) + Sum(rows, All)
  {
    SumConcat(db.ledger, rows, All);
    SumConcat(db.ledger, rows, External);
    SumConcat(db.ledger, rows, Expiry);
    NoMatches(rows, External);
    NoMatches(rows, Expiry);
  }
}
