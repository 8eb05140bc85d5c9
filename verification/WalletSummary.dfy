/** What a user is told about the wallet (wallet/repo.go summary): coins now, coins going soon, and the next to go. */
module WalletSummary {
  import opened Wrappers
  import opened WalletLedger
  import opened WalletSpend

  const WARN_WINDOW := 3 * DAY

  datatype Summary = Summary(available: int, expiringSoon: int, nextAt: Option<int>, nextCoins: int)

  function AliveSum(rows: seq<Lot>, t: int): int {
    if rows == [] then 0
    else
      var n := |rows| - 1;
      AliveSum(rows[..n], t) + if Alive(rows[n], t) then rows[n].remaining else 0
  }

  lemma {:induction false} SelectedBalance(lots: seq<Lot>, account: nat, now: int, t: int)
    requires t >= now && forall i :: 0 <= i < |lots| ==> lots[i].remaining >= 0
    ensures AliveSum(SelectSpendable(lots, account, now), t) == Balance(lots, account, t)
  {
    if lots != [] {
      var n := |lots| - 1;
      SelectedBalance(lots[..n], account, now, t);
      var r := SelectSpendable(lots[..n], account, now);
      assert (r + [lots[n]])[..|r|] == r;
    }
  }

  lemma {:induction false} SelectedAreSpendable(lots: seq<Lot>, account: nat, now: int)
    ensures forall i :: 0 <= i < |SelectSpendable(lots, account, now)| ==>
              Spendable(SelectSpendable(lots, account, now)[i], account, now)
  {
    if lots != [] {
      SelectedAreSpendable(lots[..|lots| - 1], account, now);
    }
  }

  // What the three figures mean for rows alive at `now`.
  ghost predicate Sums(rows: seq<Lot>, now: int, s: Summary) {
    && s.available == AliveSum(rows, now)
    && s.expiringSoon == AliveSum(rows, now) - AliveSum(rows, now + WARN_WINDOW)
    && (s.nextAt.None? ==> forall t :: t >= now ==> AliveSum(rows, t) == AliveSum(rows, now))
    && (s.nextAt.Some? ==> IsNext(rows, now, s.nextAt.value, s.nextCoins))
  }

  // Nothing goes before `at`, and exactly `coins` go then.
  ghost predicate IsNext(rows: seq<Lot>, now: int, at: int, coins: int) {
    && at > now && coins > 0
    && (forall t :: now <= t < at ==> AliveSum(rows, t) == AliveSum(rows, now))
    && AliveSum(rows, at) == AliveSum(rows, now) - coins
  }

  function WithRow(s: Summary, lot: Lot, now: int): Summary {
    var all := s.(available := s.available + lot.remaining);
    if lot.expireAt.None? then all
    else
      var at := lot.expireAt.value;
      var soon := if at <= now + WARN_WINDOW then all.(expiringSoon := all.expiringSoon + lot.remaining) else all;
      if s.nextAt.None? || at < s.nextAt.value then soon.(nextAt := Some(at), nextCoins := lot.remaining)
      else if at == s.nextAt.value then soon.(nextCoins := soon.nextCoins + lot.remaining)
      else soon
  }

  lemma OneMoreRow(rows: seq<Lot>, i: nat, now: int, s: Summary)
    requires i < |rows| && Sums(rows[..i], now, s) && rows[i].remaining > 0 && Alive(rows[i], now)
    ensures Sums(rows[..i + 1], now, WithRow(s, rows[i], now))
  {
    var more := rows[..i + 1];
    assert more[..i] == rows[..i];
    forall t ensures AliveSum(more, t) == AliveSum(rows[..i], t) + if Alive(rows[i], t) then rows[i].remaining else 0 {}
  }

  // The coins a user has now, those gone three days from now if unused, and the first instant at which any go, with how
  // many go then.
  method Summarize(lots: seq<Lot>, account: nat, now: int) returns (s: Summary)
    ensures Sums(SelectSpendable(lots, account, now), now, s)
  {
    var rows := SelectSpendable(lots, account, now);
    SelectedAreSpendable(lots, account, now);
    s := Summary(0, 0, None, 0);
    for i := 0 to |rows|
      invariant Sums(rows[..i], now, s)
    {
      OneMoreRow(rows, i, now, s);
      var item := rows[i];
      var available, soon, nextAt, nextCoins := s.available + item.remaining, s.expiringSoon, s.nextAt, s.nextCoins;
      if item.expireAt.Some? {
        var at := item.expireAt.value;
        if at <= now + WARN_WINDOW {
          soon := soon + item.remaining;
        }
        if nextAt == None || at < nextAt.value {
          nextAt := Some(at);
          nextCoins := item.remaining;
        } else if at == nextAt.value {
          nextCoins := nextCoins + item.remaining;
        }
      }
      s := Summary(available, soon, nextAt, nextCoins);
    }
    assert rows[..|rows|] == rows;
  }

  // The figures are statements about the account's balance over time.
  lemma SummaryForetellsBalance(lots: seq<Lot>, account: nat, now: int, s: Summary)
    requires Sums(SelectSpendable(lots, account, now), now, s) && forall i :: 0 <= i < |lots| ==> lots[i].remaining >= 0
    ensures s.available == Balance(lots, account, now)
    ensures s.expiringSoon == Balance(lots, account, now) - Balance(lots, account, now + 3 * 86_400_000_000_000)
    ensures s.nextAt.None? ==> forall t :: t >= now ==> Balance(lots, account, t) == s.available
    ensures s.nextAt.Some? ==> s.nextAt.value > now && s.nextCoins > 0
                               && Balance(lots, account, s.nextAt.value) == s.available - s.nextCoins
                               && forall t :: now <= t < s.nextAt.value ==> Balance(lots, account, t) == s.available
  {
    forall t | t >= now ensures AliveSum(SelectSpendable(lots, account, now), t) == Balance(lots, account, t) {
      SelectedBalance(lots, account, now, t);
    }
  }
}
