/**
 Rows handed out under a lease (outbox/repo.go, outbox/poller.go, popularity/projection_repo.go,
 popularity/projection_poller.go): the two tables and their pollers share one design.
*/
module LeaseTable {
  import opened Wrappers
  import opened Batches

  datatype Status = Pending | Leased

  datatype Row = Row(status: Status, nextAttempt: int, lockedAt: Option<int>, attempts: nat)

  const DEFAULT_LIMIT := 20

  function NewRow(now: int): Row {
    Row(Pending, now, None, 0)
  }

  // A pending row whose time has come, or a leased row whose lease ran out.
  predicate Eligible(row: Row, now: int, timeout: int) {
    || (row.status == Pending && row.nextAttempt <= now)
    || (row.status == Leased && row.lockedAt.Some? && row.lockedAt.value <= now - timeout)
  }

  function Due(rows: map<nat, Row>, now: int, timeout: int): set<nat> {
    set id | id in rows && Eligible(rows[id], now, timeout)
  }

  function Lease(row: Row, now: int): Row {
    Row(Leased, now, Some(now), row.attempts + 1)
  }

  function Leases(rows: map<nat, Row>, ids: seq<nat>, now: int): map<nat, Row> {
    map id | id in rows :: if id in ids then Lease(rows[id], now) else rows[id]
  }

  // The conditional update: of the candidates chosen earlier, those still eligible.
  function StillDue(rows: map<nat, Row>, candidates: seq<nat>, now: int, timeout: int): (r: seq<nat>)
    ensures |r| <= |candidates|
    ensures forall id :: id in r <==> id in candidates && id in rows && Eligible(rows[id], now, timeout)
  {
    if candidates == [] then []
    else
      var n := |candidates| - 1;
      var r := StillDue(rows, candidates[..n], now, timeout);
      assert candidates == candidates[..n] + [candidates[n]];
      if candidates[n] in rows && Eligible(rows[candidates[n]], now, timeout) then r + [candidates[n]] else r
  }

  lemma {:induction false} AllStillDue(rows: map<nat, Row>, candidates: seq<nat>, now: int, timeout: int)
    requires forall id :: id in candidates ==> id in rows && Eligible(rows[id], now, timeout)
    ensures StillDue(rows, candidates, now, timeout) == candidates
  {
    if candidates != [] {
      var n := |candidates| - 1;
      assert candidates == candidates[..n] + [candidates[n]];
      AllStillDue(rows, candidates[..n], now, timeout);
    }
  }

  // Two pollers may pick the same candidates; whoever updates second gets none of the rows the first one took,
  // exactly until the first lease runs out.
  lemma LeaseIsExclusive(rows: map<nat, Row>, first: seq<nat>, second: seq<nat>, now: int, later: int, timeout: int,
                         id: nat)
    requires id in StillDue(rows, first, now, timeout) && id in second
    ensures var taken := Leases(rows, StillDue(rows, first, now, timeout), now);
            id in StillDue(taken, second, later, timeout) <==> later >= now + timeout
  {
    var taken := Leases(rows, StillDue(rows, first, now, timeout), now);
    assert taken[id] == Lease(rows[id], now);
  }

  // ---------------------------------------------------------------- backoff

  const MAX_RETRY_DELAY := 60

  function Power(n: nat): nat {
    if n == 0 then 1 else 2 * Power(n - 1)
  }

  // 2, 4, 8, ... seconds, at most a minute.
  function RetryDelay(attempt: int): (d: int)
  {
    if attempt <= 1 then 2 else if Power(attempt) > MAX_RETRY_DELAY then MAX_RETRY_DELAY else Power(attempt)
  }

  lemma {:induction false} PowerGrows(a: nat, b: nat)
    requires a <= b
    ensures 1 <= Power(a) <= Power(b)
  {
    if a < b {
      PowerGrows(a, b - 1);
    } else if a > 0 {
      PowerGrows(a - 1, a - 1);
    }
  }

  method NextRetryDelay(attempt: int) returns (delay: int)
    ensures delay == RetryDelay(attempt)
  {
    if attempt <= 1 {
      return 2;
    }
    delay := 2;
    var i := 1;
    while i < attempt && delay < MAX_RETRY_DELAY
      invariant 1 <= i <= attempt && delay == Power(i)
    {
      delay := delay * 2;
      i := i + 1;
    }
    PowerGrows(i, attempt);
    if delay > MAX_RETRY_DELAY {
      delay := MAX_RETRY_DELAY;
    }
  }

  // A row is never retried sooner than after two seconds, nor sooner for having failed more often, nor later than a
  // minute.
  lemma DelaysGrow(a: int, b: int)
    requires a <= b
    ensures 2 <= RetryDelay(a) <= RetryDelay(b) <= MAX_RETRY_DELAY
  {
    if b > 1 {
      PowerGrows(1, b);
      if a > 1 {
        PowerGrows(a, b);
        PowerGrows(1, a);
      }
    }
  }

  // The first failure waits two seconds, each further one twice as long as the last, until that would exceed a minute.
  lemma DelayDoubles(attempt: int)
    ensures attempt <= 1 ==> RetryDelay(attempt) == 2
    ensures attempt >= 1 ==>
              RetryDelay(attempt + 1) == if 2 * RetryDelay(attempt) > 60 then 60 else 2 * RetryDelay(attempt)
  {
    if attempt == 1 {
      assert Power(2) == 2 * Power(1) == 4;
    } else if attempt > 1 {
      assert Power(attempt + 1) == 2 * Power(attempt);
    }
  }

  // ---------------------------------------------------------------- one round of a poller

  function Requeued(rows: map<nat, Row>, id: nat, retryAt: int): map<nat, Row> {
    if id in rows then rows[id := rows[id].(status := Pending, nextAttempt := retryAt, lockedAt := None)] else rows
  }

  // What one round does to a claimed row: it waits for its delay if its delivery failed and is gone otherwise, but a
  // row whose final update failed stays leased.
  function Finished(row: Row, id: nat, failedAt: map<nat, int>, stuck: set<nat>): Option<Row> {
    if id in stuck then Some(row)
    else if id in failedAt
    then Some(row.(status := Pending, nextAttempt := failedAt[id] + RetryDelay(row.attempts), lockedAt := None))
    else None
  }

  // The rows that were not claimed are as they were.
  function AfterRound(rows: map<nat, Row>, claimed: seq<nat>, failedAt: map<nat, int>, stuck: set<nat>): map<nat, Row> {
    map id | id in rows && (id in claimed ==> Finished(rows[id], id, failedAt, stuck).Some?) ::
      if id in claimed then Finished(rows[id], id, failedAt, stuck).value else rows[id]
  }

  function Settle(rows: map<nat, Row>, id: nat, row: Option<Row>): map<nat, Row> {
    if row.Some? then rows[id := row.value] else rows - {id}
  }

  lemma OneMoreDone(rows: map<nat, Row>, claimed: seq<nat>, i: nat, failedAt: map<nat, int>, stuck: set<nat>)
    requires Ascending(claimed) && i < |claimed| && claimed[i] in rows
    ensures var before := AfterRound(rows, claimed[..i], failedAt, stuck);
            var id := claimed[i];
            && id in before && before[id] == rows[id]
            && AfterRound(rows, claimed[..i + 1], failedAt, stuck)
                 == Settle(before, id, Finished(rows[id], id, failedAt, stuck))
  {
    var id := claimed[i];
    assert claimed[..i + 1] == claimed[..i] + [id];
    assert forall j :: 0 <= j < i ==> claimed[j] < id;
    assert id !in claimed[..i];
  }

  // ---------------------------------------------------------------- the table

  class LeaseRepo {
    var rows: map<nat, Row>
    var nextId: nat

    constructor ()
      ensures Valid() && rows == map[]
    {
      rows := map[];
      nextId := 1;
    }

    ghost predicate Valid()
      reads this
    {
      nextId > 0 && forall id :: id in rows ==> 0 < id < nextId
    }

    method Enqueue(now: int) returns (id: nat)
      requires Valid()
      modifies this
      ensures Valid() && id !in old(rows) && rows == old(rows)[id := NewRow(now)]
    {
      id := nextId;
      nextId := nextId + 1;
      rows := rows[id := NewRow(now)];
    }

    // SELECT ... ORDER BY id ASC LIMIT limit
    method SelectDue(limit: nat, now: int, timeout: int) returns (ids: seq<nat>)
      requires Valid()
      ensures IsBatch(Due(rows, now, timeout), 0, limit, ids)
    {
      ids := [];
      var id := 1;
      while id < nextId && |ids| < limit
        invariant 1 <= id && |ids| <= limit
        invariant Ascending(ids) && forall i :: 0 <= i < |ids| ==> 0 < ids[i] < id
        invariant forall u :: 0 < u < id ==> (u in ids <==> u in Due(rows, now, timeout))
        decreases nextId - id
      {
        if id in rows && Eligible(rows[id], now, timeout) {
          ids := ids + [id];
        }
        id := id + 1;
      }
    }

    // Select and update run in one transaction.
    method ClaimBatch(limit: int, now: int, timeout: int) returns (claimed: seq<nat>)
      requires Valid()
      modifies this`rows
      ensures Valid()
      ensures IsBatch(Due(old(rows), now, timeout), 0, if limit <= 0 then 20 else limit, claimed)
      ensures rows == Leases(old(rows), claimed, now)
    {
      var size := if limit <= 0 then DEFAULT_LIMIT else limit;
      var candidates := SelectDue(size, now, timeout);
      claimed := StillDue(rows, candidates, now, timeout);
      AllStillDue(rows, candidates, now, timeout);
      rows := Leases(rows, claimed, now);
    }

    method Delete(id: nat)
      requires Valid()
      modifies this`rows
      ensures Valid() && rows == old(rows) - {id}
    {
      rows := rows - {id};
    }

    // Neither this nor Delete looks at who holds the lease.
    method MarkPending(id: nat, retryAt: int)
      requires Valid()
      modifies this`rows
      ensures Valid() && rows == Requeued(old(rows), id, retryAt)
    {
      if id in rows {
        rows := rows[id := rows[id].(status := Pending, nextAttempt := retryAt, lockedAt := None)];
      }
    }

    // The row's delivery is over; the update that says so may fail and is then only logged.
    method Finish(id: nat, failedAt: map<nat, int>, stuck: set<nat>)
      requires Valid() && id in rows
      modifies this`rows
      ensures Valid() && rows == Settle(old(rows), id, Finished(old(rows)[id], id, failedAt, stuck))
    {
      if id in failedAt {
        var delay := NextRetryDelay(rows[id].attempts);
        if id !in stuck {
          MarkPending(id, failedAt[id] + delay);
        }
      } else if id !in stuck {
        Delete(id);
      }
    }

    // One round of a poller. failedAt gives, for the rows whose delivery failed, the time of the failure; stuck are the
    // rows that could be neither deleted nor put back.
    method RunOnce(now: int, timeout: int, failedAt: map<nat, int>, stuck: set<nat>) returns (delivered: seq<nat>)
      requires Valid()
      modifies this`rows
      ensures Valid()
      ensures exists claimed ::
                && IsBatch(Due(old(rows), now, timeout), 0, 20, claimed)
                && (forall id :: id in delivered <==> id in claimed && id !in failedAt)
                && rows == AfterRound(Leases(old(rows), claimed, now), claimed, failedAt, stuck)
    {
      delivered := [];
      var claimed := ClaimBatch(DEFAULT_LIMIT, now, timeout);
      ghost var leased := rows;
      for i := 0 to |claimed|
        invariant Valid()
        invariant forall id :: id in delivered <==> id in claimed[..i] && id !in failedAt
        invariant rows == AfterRound(leased, claimed[..i], failedAt, stuck)
      {
        var id := claimed[i];
        assert claimed[..i + 1] == claimed[..i] + [id];
        OneMoreDone(leased, claimed, i, failedAt, stuck);
        if id !in failedAt {
          delivered := delivered + [id];
        }
        Finish(id, failedAt, stuck);
      }
      assert claimed[..|claimed|] == claimed;
    }
  }

  // After a round a failed row comes up again exactly once its delay has passed, whatever the lease timeout; a row that
  // could not be updated does so exactly once its lease has run out, delivered or not.
  lemma FailedRowReturns(rows: map<nat, Row>, claimed: seq<nat>, failedAt: map<nat, int>, stuck: set<nat>, now: int,
                         id: nat, later: int, timeout: int)
    requires id in rows && id in claimed
    ensures var after := AfterRound(Leases(rows, claimed, now), claimed, failedAt, stuck);
            id in Due(after, later, timeout) <==>
              if id in stuck then later >= now + timeout
              else id in failedAt && later >= failedAt[id] + RetryDelay(rows[id].attempts + 1)
  {
    assert Leases(rows, claimed, now)[id] == Lease(rows[id], now);
  }

  // A new row is due from the moment it was written and, if its first delivery fails, again two seconds after that.
  lemma NewRowIsDue(rows: map<nat, Row>, id: nat, now: int, later: int, timeout: int)
    ensures id in Due(rows[id := NewRow(now)], later, timeout) <==> later >= now
  {}

  lemma FirstFailureWaitsTwoSeconds(rows: map<nat, Row>, id: nat, now: int, claimed: seq<nat>, failedAt: map<nat, int>,
                                    later: int, timeout: int)
    requires id in claimed && id in failedAt
    ensures var after := AfterRound(Leases(rows[id := NewRow(now)], claimed, now), claimed, failedAt, {});
            id in Due(after, later, timeout) <==> later >= failedAt[id] + 2
  {
    FailedRowReturns(rows[id := NewRow(now)], claimed, failedAt, {}, now, id, later, timeout);
  }
}
