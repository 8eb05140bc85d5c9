/**
 The fan-out worker (worker/fanout_worker.go, social/repo.go): a published video is pushed to its author's followers
 in batches, each batch message carrying the cursor of the next.
*/
module FanoutWorker {
  import opened Wrappers
  import opened Recency
  import opened TopN
  import opened Batches
  import opened Sums
  import opened Inbox

  datatype Mode = PushAll | PushActive

  datatype BatchMsg = BatchMsg(video: nat, author: nat, createdAt: int, mode: Mode, cursor: nat)

  // ---------------------------------------------------------------- one batch

  function After(rows: seq<nat>, cursor: nat): seq<nat> {
    if rows != [] && rows[0] <= cursor then After(rows[1..], cursor) else rows
  }

  // WHERE follower_id > cursor ORDER BY follower_id LIMIT limit, over the index in ascending order.
  function ListFollowerIDsAfter(rows: seq<nat>, cursor: nat, limit: nat): seq<nat> {
    FirstN(After(rows, cursor), limit)
  }

  lemma {:induction false} AfterFacts(rows: seq<nat>, cursor: nat)
    requires Ascending(rows)
    ensures Ascending(After(rows, cursor))
    ensures forall u :: u in After(rows, cursor) <==> u in rows && u > cursor
  {
    if rows != [] && rows[0] <= cursor {
      assert forall i :: 0 <= i < |rows| - 1 ==> rows[1..][i] == rows[i + 1];
      AfterFacts(rows[1..], cursor);
      assert rows == [rows[0]] + rows[1..];
    } else {
      forall u | u in rows ensures u > cursor {
        var k :| 0 <= k < |rows| && rows[k] == u;
        assert k == 0 || rows[0] < rows[k];
      }
    }
  }

  lemma QueryIsBatch(rows: seq<nat>, cursor: nat, limit: nat)
    requires Ascending(rows)
    ensures IsBatch(SetOf(rows), cursor, limit, ListFollowerIDsAfter(rows, cursor, limit))
  {
    AfterFacts(rows, cursor);
    var all, ids := After(rows, cursor), ListFollowerIDsAfter(rows, cursor, limit);
    assert forall i :: 0 <= i < |ids| ==> ids[i] == all[i] && all[i] in all;
    forall u | u in rows && u > cursor && u !in ids
      ensures |ids| == limit && forall i :: 0 <= i < limit ==> ids[i] < u
    {
      BehindTheFirst(all, limit, u);
    }
  }

  lemma BehindTheFirst(all: seq<nat>, limit: nat, u: nat)
    requires Ascending(all) && u in all && u !in FirstN(all, limit)
    ensures |FirstN(all, limit)| == limit && forall i :: 0 <= i < limit ==> FirstN(all, limit)[i] < u
  {
    var k :| 0 <= k < |all| && all[k] == u;
    assert k >= |FirstN(all, limit)|;
  }

  // Whom a batch reaches: everyone in it, or with tiered push those whose flag is up.
  predicate Reaches(ids: seq<nat>, pushAll: bool, active: set<nat>, u: nat) {
    u != 0 && u in ids && (pushAll || u in active)
  }

  // An inbox after a batch.
  function Delivered(z: set<Entry>, reached: bool, e: Entry, maxSize: nat): set<Entry> {
    if reached then KeepNewest(ZAdd(z, e), maxSize) else z
  }

  // A full batch is followed by one that starts behind it.
  function NextCursor(ids: seq<nat>, batchSize: int): Option<nat> {
    if ids == [] || |ids| < batchSize then None else Some(ids[|ids| - 1])
  }

  datatype BatchError = InvalidPayload

  // handleBatch: list, choose, push, and only then publish the next batch.
  method HandleBatch(store: InboxStore, followers: seq<nat>, msg: BatchMsg, batchSize: nat)
    returns (r: Result<Option<BatchMsg>, BatchError>)
    requires Ascending(followers)
    modifies store`zsets
    ensures r.Err? <==> msg.video == 0 || msg.author == 0
    ensures r.Err? ==> unchanged(store)
    ensures r.Ok? ==>
              var ids := ListFollowerIDsAfter(followers, msg.cursor, batchSize);
              && r.value == (match NextCursor(ids, batchSize) case None => None case Some(c) => Some(msg.(cursor := c)))
              && forall u :: store.Inbox(u) ==
                   Delivered(old(store.Inbox(u)), Reaches(ids, msg.mode.PushAll?, store.active, u),
                             Entry(msg.video, msg.createdAt), store.maxSize)
  {
    if msg.video == 0 || msg.author == 0 {
      return Err(InvalidPayload);
    }
    var ids := ListFollowerIDsAfter(followers, msg.cursor, batchSize);
    if |ids| == 0 {
      return Ok(None);
    }
    var targets := ids;
    if msg.mode == PushActive {
      targets := store.FilterActive(ids);
    }
    store.Push(targets, msg.video, msg.createdAt);
    if |ids| < batchSize {
      return Ok(None);
    }
    return Ok(Some(msg.(cursor := ids[|ids| - 1])));
  }

  // ---------------------------------------------------------------- the chain of batches

  function Cursor(batches: seq<seq<nat>>, i: nat): nat
    requires i <= |batches|
  {
    if i == 0 || batches[i - 1] == [] then 0 else batches[i - 1][|batches[i - 1]| - 1]
  }

  // tables[i] is the follower set at the moment batch i is listed; follows and unfollows may happen in between.
  // A batch is followed by another exactly when it is full.
  ghost predicate IsChain(tables: seq<set<nat>>, batches: seq<seq<nat>>, limit: nat) {
    && |tables| == |batches|
    && forall i :: 0 <= i < |batches| ==>
         && IsBatch(tables[i], Cursor(batches, i), limit, batches[i])
         && (i + 1 < |batches| ==> |batches[i]| == limit)
  }

  ghost predicate IsFinished(batches: seq<seq<nat>>, limit: nat) {
    batches != [] && |batches[|batches| - 1]| < limit
  }

  // The first n batches, one after the other.
  function Flatten(batches: seq<seq<nat>>, n: nat): seq<nat>
    requires n <= |batches|
  {
    if n == 0 then [] else Flatten(batches, n - 1) + batches[n - 1]
  }

  lemma AscendingJoin(a: seq<nat>, b: seq<nat>, middle: nat)
    requires Ascending(a) && Ascending(b) && EndsBelow(a, middle) && StartsAbove(b, middle)
    ensures Ascending(a + b)
    ensures b != [] ==> EndsBelow(a + b, b[|b| - 1])
  {
    if b != [] {
      assert b[0] > middle && forall k :: 0 <= k < |b| ==> b[k] <= b[|b| - 1];
    }
  }

  lemma ChainBatch(tables: seq<set<nat>>, batches: seq<seq<nat>>, limit: nat, i: nat)
    requires IsChain(tables, batches, limit) && i < |batches|
    ensures Ascending(batches[i]) && forall k :: 0 <= k < |batches[i]| ==> batches[i][k] > Cursor(batches, i)
    ensures i + 1 < |batches| ==> |batches[i]| == limit
  {
    assert IsBatch(tables[i], Cursor(batches, i), limit, batches[i]);
  }

  // The first n batches are ascending, not empty, and start above their cursors.
  ghost predicate Rising(batches: seq<seq<nat>>, n: nat)
    requires n <= |batches|
  {
    forall i :: 0 <= i < n ==> RisesAt(batches, i)
  }

  ghost predicate StartsAbove(ids: seq<nat>, cursor: nat) {
    forall k :: 0 <= k < |ids| ==> ids[k] > cursor
  }

  ghost predicate EndsBelow(ids: seq<nat>, cursor: nat) {
    forall k :: 0 <= k < |ids| ==> ids[k] <= cursor
  }

  lemma ChainRises(tables: seq<set<nat>>, batches: seq<seq<nat>>, limit: nat)
    requires IsChain(tables, batches, limit) && limit >= 1 && batches != []
    ensures Rising(batches, |batches| - 1)
  {
    forall i | 0 <= i < |batches| - 1 ensures RisesAt(batches, i) {
      ChainBatch(tables, batches, limit, i);
    }
  }

  // What was listed before batch n ascends and lies at or below its cursor.
  ghost predicate ListedBelow(batches: seq<seq<nat>>, n: nat)
    requires n <= |batches|
  {
    Ascending(Flatten(batches, n)) && EndsBelow(Flatten(batches, n), Cursor(batches, n))
  }

  ghost predicate RisesAt(batches: seq<seq<nat>>, i: nat)
    requires i < |batches|
  {
    Ascending(batches[i]) && batches[i] != [] && StartsAbove(batches[i], Cursor(batches, i))
  }

  lemma OneMoreListed(batches: seq<seq<nat>>, n: nat)
    requires 0 < n <= |batches| && RisesAt(batches, n - 1) && ListedBelow(batches, n - 1)
    ensures ListedBelow(batches, n)
  {
    AscendingJoin(Flatten(batches, n - 1), batches[n - 1], Cursor(batches, n - 1));
  }

  lemma {:induction false} ListedUpToCursor(batches: seq<seq<nat>>, n: nat)
    requires n <= |batches| && Rising(batches, n)
    ensures ListedBelow(batches, n)
  {
    if n > 0 {
      ListedUpToCursor(batches, n - 1);
      OneMoreListed(batches, n);
    }
  }

  lemma ChainAscends(tables: seq<set<nat>>, batches: seq<seq<nat>>, limit: nat)
    requires IsChain(tables, batches, limit) && limit >= 1
    ensures Ascending(Flatten(batches, |batches|))
  {
    if batches != [] {
      var n := |batches| - 1;
      ChainRises(tables, batches, limit);
      ListedUpToCursor(batches, n);
      ChainBatch(tables, batches, limit, n);
      AscendingJoin(Flatten(batches, n), batches[n], Cursor(batches, n));
    }
  }

  lemma {:induction false} InFlatten(batches: seq<seq<nat>>, n: nat, u: nat)
    requires n <= |batches|
    ensures u in Flatten(batches, n) <==> Listed(batches, n, u)
  {
    if n > 0 {
      InFlatten(batches, n - 1, u);
    }
  }

  lemma UnlistedStaysAhead(followers: set<nat>, cursor: nat, limit: nat, ids: seq<nat>, u: nat)
    requires IsBatch(followers, cursor, limit, ids) && limit >= 1 && u in followers && u > cursor && u !in ids
    ensures |ids| == limit && ids[limit - 1] < u
  {}

  ghost predicate Listed(batches: seq<seq<nat>>, n: nat, u: nat)
    requires n <= |batches|
  {
    exists i :: 0 <= i < n && u in batches[i]
  }

  // Below the cursor of batch n, a steady follower has already been listed.
  lemma {:induction false} SteadyFollowerListed(tables: seq<set<nat>>, batches: seq<seq<nat>>, limit: nat, u: nat,
                                                n: nat)
    requires IsChain(tables, batches, limit) && limit >= 1 && n <= |batches|
    requires u > 0 && forall i :: 0 <= i < n ==> u in tables[i]
    ensures u > Cursor(batches, n) || Listed(batches, n, u)
  {
    if n > 0 {
      SteadyFollowerListed(tables, batches, limit, u, n - 1);
      if Listed(batches, n - 1, u) {
        var i :| 0 <= i < n - 1 && u in batches[i];
        assert Listed(batches, n, u);
      } else if u !in batches[n - 1] {
        UnlistedStaysAhead(tables[n - 1], Cursor(batches, n - 1), limit, batches[n - 1], u);
      }
    }
  }

  // The chain lists ids in ascending order, hence each at most once, and everyone who followed throughout.
  lemma ChainListsSteadyFollowersOnce(tables: seq<set<nat>>, batches: seq<seq<nat>>, limit: nat)
    requires IsChain(tables, batches, limit) && limit >= 1
    ensures Ascending(Flatten(batches, |batches|))
    ensures IsFinished(batches, limit) ==>
              forall u :: u > 0 && (forall i :: 0 <= i < |tables| ==> u in tables[i]) ==> u in Flatten(batches, |batches|)
  {
    ChainAscends(tables, batches, limit);
    if IsFinished(batches, limit) {
      var n := |batches| - 1;
      forall u | u > 0 && (forall i :: 0 <= i < |tables| ==> u in tables[i]) ensures u in Flatten(batches, |batches|) {
        InFlatten(batches, |batches|, u);
        SteadyFollowerListed(tables, batches, limit, u, n);
        if u !in batches[n] {
          var i :| 0 <= i < n && u in batches[i];
        }
      }
    }
  }

  // Every full batch moves the cursor up by at least the batch size, so a chain over ids up to `top` is short.
  lemma {:induction false} CursorRises(batches: seq<seq<nat>>, limit: nat, n: nat)
    requires n <= |batches| && Rising(batches, n) && forall i :: 0 <= i < n ==> |batches[i]| == limit
    ensures Cursor(batches, n) >= Times(n, limit)
  {
    if n > 0 {
      CursorRises(batches, limit, n - 1);
      assert RisesAt(batches, n - 1);
      AscendingGap(batches[n - 1], Cursor(batches, n - 1), limit - 1);
    }
  }

  lemma {:induction false} AscendingGap(ids: seq<nat>, floor: nat, k: nat)
    requires Ascending(ids) && k < |ids| && ids[0] > floor
    ensures ids[k] >= floor + k + 1
  {
    if k > 0 {
      AscendingGap(ids, floor, k - 1);
    }
  }

  lemma ChainEnds(tables: seq<set<nat>>, batches: seq<seq<nat>>, limit: nat, top: nat)
    requires IsChain(tables, batches, limit) && limit >= 1 && batches != []
    requires forall i, u :: 0 <= i < |tables| && u in tables[i] ==> u <= top
    ensures (|batches| - 1) * limit <= top
  {
    var n := |batches| - 1;
    if n > 0 {
      ChainRises(tables, batches, limit);
      CursorRises(batches, limit, n);
      TimesIsProduct(n, limit);
      assert IsBatch(tables[n - 1], Cursor(batches, n - 1), limit, batches[n - 1]);
      assert batches[n - 1][limit - 1] in tables[n - 1];
    }
  }
}
