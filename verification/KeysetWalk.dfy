/**
 Keyset pages from MySQL (feed/repo.go ListByFollowing and ListLatest, feed/service.go listByFollowingFromMySQL) and
 the walk a client makes by feeding each page's (NextTime, NextID) back.
*/
module KeysetWalk {
  import opened Recency
  import opened TopN
  import opened Inbox
  import opened FeedPaging

  // The matching rows the cursor lets through, in the order of the table's rows.
  function Past(rows: seq<Entry>, latestTime: int, lastId: nat): (r: seq<Entry>)
    ensures |r| <= |rows| && forall e :: e in r <==> e in rows && SqlCursor(e, latestTime, lastId)
  {
    if rows == [] then []
    else
      assert rows == [rows[0]] + rows[1..];
      if SqlCursor(rows[0], latestTime, lastId) then [rows[0]] + Past(rows[1..], latestTime, lastId)
      else Past(rows[1..], latestTime, lastId)
  }

  // One query asks for limit + 1 rows, over the rows in index order.
  function Fetch(rows: seq<Entry>, limit: nat, latestTime: int, lastId: nat): Page
    requires limit >= 1
  {
    PageOf(FirstN(Past(rows, latestTime, lastId), limit + 1), limit)
  }

  function Playable(rows: seq<Entry>, playable: set<nat>): seq<Entry> {
    if rows == [] then []
    else
      var r := Playable(rows[..|rows| - 1], playable);
      if rows[|rows| - 1].id in playable then r + [rows[|rows| - 1]] else r
  }

  lemma {:induction false} PlayableAre(rows: seq<Entry>, playable: set<nat>)
    ensures forall e :: e in Playable(rows, playable) <==> e in rows && e.id in playable
  {
    if rows != [] {
      PlayableAre(rows[..|rows| - 1], playable);
      assert rows == rows[..|rows| - 1] + [rows[|rows| - 1]];
    }
  }

  lemma {:induction false} PlayableKeepsOrder(rows: seq<Entry>, playable: set<nat>)
    requires Descending(rows, Newer)
    ensures Descending(Playable(rows, playable), Newer)
  {
    if rows != [] {
      var front, last := rows[..|rows| - 1], rows[|rows| - 1];
      PlayableKeepsOrder(front, playable);
      PlayableAre(front, playable);
      forall e | e in Playable(front, playable) ensures Newer(e, last) {
        var k :| 0 <= k < |front| && front[k] == e;
        assert Newer(rows[k], last);
      }
    }
  }

  lemma {:induction false} PlayableConcat(a: seq<Entry>, b: seq<Entry>, playable: set<nat>)
    ensures Playable(a + b, playable) == Playable(a, playable) + Playable(b, playable)
  {
    if b == [] {
      assert a + b == a;
    } else {
      PlayableConcat(a, b[..|b| - 1], playable);
      assert (a + b)[..|a + b| - 1] == a + b[..|b| - 1];
    }
  }

  lemma {:induction false} PastKeepsOrder(rows: seq<Entry>, latestTime: int, lastId: nat)
    requires Descending(rows, Newer)
    ensures Descending(Past(rows, latestTime, lastId), Newer)
  {
    if rows != [] {
      PastKeepsOrder(rows[1..], latestTime, lastId);
      forall e | e in Past(rows[1..], latestTime, lastId) ensures Newer(rows[0], e) {
        var k :| 0 < k < |rows| && rows[k] == e;
      }
    }
  }

  // Exactly the playable ones, in the order of the rows.
  ghost predicate ShowsPlayable(videos: seq<Entry>, rows: seq<Entry>, playable: set<nat>) {
    && (forall e :: e in videos <==> e in rows && e.id in playable)
    && (Descending(rows, Newer) ==> Descending(videos, Newer))
  }

  lemma PageKeepsOrder(rows: seq<Entry>, limit: nat, latestTime: int, lastId: nat)
    requires limit >= 1
    ensures Descending(rows, Newer) ==> Descending(Fetch(rows, limit, latestTime, lastId).rows, Newer)
  {
    if Descending(rows, Newer) {
      PastKeepsOrder(rows, latestTime, lastId);
    }
  }

  // FilterPlayable
  method FilterPlayable(raw: seq<Entry>, playable: set<nat>) returns (videos: seq<Entry>)
    ensures videos == Playable(raw, playable)
    ensures ShowsPlayable(videos, raw, playable)
  {
    videos := [];
    for i := 0 to |raw|
      invariant videos == Playable(raw[..i], playable)
    {
      assert raw[..i + 1][..i] == raw[..i];
      if raw[i].id in playable {
        videos := videos + [raw[i]];
      }
    }
    assert raw[..|raw|] == raw;
    PlayableAre(raw, playable);
    if Descending(raw, Newer) {
      PlayableKeepsOrder(raw, playable);
    }
  }

  // The cursor comes from the raw rows, so a page whose videos are all unplayable still moves on.
  method ListFromMySQL(rows: seq<Entry>, playable: set<nat>, req: Request) returns (videos: seq<Entry>, page: Page)
    requires req.limit >= 1
    ensures page == Fetch(rows, req.limit, req.latestTime, req.lastId)
    ensures videos == Playable(page.rows, playable)
    ensures ShowsPlayable(videos, page.rows, playable)
    ensures Descending(rows, Newer) ==> Descending(page.rows, Newer)
  {
    var found := FirstN(Past(rows, req.latestTime, req.lastId), req.limit + 1);
    var raw := TrimPage(found, req.limit);
    videos := FilterPlayable(raw, playable);
    page := Page(raw, |found| > req.limit, 0, 0);
    if |raw| > 0 {
      var last := raw[|raw| - 1];
      page := page.(nextTime := last.score, nextId := last.id);
    }
    PageKeepsOrder(rows, req.limit, req.latestTime, req.lastId);
  }

  // ---------------------------------------------------------------- one step of the walk

  // Asking for one row more than the page shows tells whether there is more.
  lemma OneRowMore(past: seq<Entry>, limit: nat)
    requires limit >= 1
    ensures var page := PageOf(FirstN(past, limit + 1), limit);
            && page.rows == FirstN(past, limit) && (page.hasMore <==> |past| > limit)
            && (page.rows != [] ==> page.rows[|page.rows| - 1] == Entry(page.nextId, page.nextTime))
  {
    var found := FirstN(past, limit + 1);
    if |past| > limit {
      assert found[..limit] == past[..limit];
    }
  }

  lemma FetchFacts(rows: seq<Entry>, limit: nat, latestTime: int, lastId: nat)
    requires limit >= 1
    ensures var page, past := Fetch(rows, limit, latestTime, lastId), Past(rows, latestTime, lastId);
            && page.rows == FirstN(past, limit) && (page.hasMore <==> |past| > limit)
            && (page.rows != [] ==> page.rows[|page.rows| - 1] == Entry(page.nextId, page.nextTime))
            && (page.hasMore ==> past[limit - 1] == Entry(page.nextId, page.nextTime))
  {
    OneRowMore(Past(rows, latestTime, lastId), limit);
  }

  lemma {:induction false} NothingPast(rows: seq<Entry>, latestTime: int, lastId: nat)
    requires forall e :: e in rows ==> !SqlCursor(e, latestTime, lastId)
    ensures Past(rows, latestTime, lastId) == []
  {
    if rows != [] {
      assert forall e :: e in rows[1..] ==> e in rows;
      NothingPast(rows[1..], latestTime, lastId);
    }
  }

  lemma {:induction false} EverythingPast(rows: seq<Entry>, latestTime: int, lastId: nat)
    requires forall e :: e in rows ==> SqlCursor(e, latestTime, lastId)
    ensures Past(rows, latestTime, lastId) == rows
  {
    if rows != [] {
      assert forall e :: e in rows[1..] ==> e in rows;
      EverythingPast(rows[1..], latestTime, lastId);
    }
  }

  lemma {:induction false} PastConcat(a: seq<Entry>, b: seq<Entry>, latestTime: int, lastId: nat)
    ensures Past(a + b, latestTime, lastId) == Past(a, latestTime, lastId) + Past(b, latestTime, lastId)
  {
    if a == [] {
      assert a + b == b;
    } else {
      assert (a + b)[1..] == a[1..] + b;
      PastConcat(a[1..], b, latestTime, lastId);
    }
  }

  // The cursor of the row at i lets through exactly the rows after it.
  lemma CursorOfRow(rows: seq<Entry>, i: nat)
    requires Descending(rows, Newer) && i < |rows| && rows[i].score > 0
    ensures Past(rows, rows[i].score, rows[i].id) == rows[i + 1..]
  {
    var a, b := rows[..i + 1], rows[i + 1..];
    assert rows == a + b;
    forall e | e in a ensures !SqlCursor(e, rows[i].score, rows[i].id) {
      var j :| 0 <= j <= i && rows[j] == e;
      assert j == i || Newer(rows[j], rows[i]);
    }
    forall e | e in b ensures SqlCursor(e, rows[i].score, rows[i].id) {
      var j :| i < j < |rows| && rows[j] == e;
      assert Newer(rows[i], rows[j]);
    }
    PastConcat(a, b, rows[i].score, rows[i].id);
    NothingPast(a, rows[i].score, rows[i].id);
    EverythingPast(b, rows[i].score, rows[i].id);
  }

  // What the cursor lets through is a tail of the table.
  ghost predicate IsTail(t: seq<Entry>, rows: seq<Entry>) {
    exists i :: 0 <= i <= |rows| && t == rows[i..]
  }

  lemma {:induction false} PastIsTail(rows: seq<Entry>, latestTime: int, lastId: nat)
    requires Descending(rows, Newer)
    ensures IsTail(Past(rows, latestTime, lastId), rows)
  {
    if rows != [] {
      assert Descending(rows[1..], Newer) by {
        assert forall i :: 0 <= i < |rows| - 1 ==> rows[1..][i] == rows[i + 1];
      }
      if SqlCursor(rows[0], latestTime, lastId) {
        forall e | e in rows ensures SqlCursor(e, latestTime, lastId) {
          var j :| 0 <= j < |rows| && rows[j] == e;
          assert j == 0 || Newer(rows[0], rows[j]);
        }
        EverythingPast(rows, latestTime, lastId);
        assert rows == rows[0..];
      } else {
        PastIsTail(rows[1..], latestTime, lastId);
        var i :| 0 <= i <= |rows[1..]| && Past(rows[1..], latestTime, lastId) == rows[1..][i..];
        assert rows[1..][i..] == rows[i + 1..];
      }
    } else {
      assert rows[0..] == [];
    }
  }

  lemma TailOfTail(rows: seq<Entry>, i: nat, n: nat)
    requires i <= |rows| && n <= |rows| - i
    ensures rows[i..][n..] == rows[i + n..] && (n > 0 ==> rows[i..][n - 1] == rows[i + n - 1])
  {}

  lemma TailBehind(rows: seq<Entry>, i: nat)
    requires Descending(rows, Newer) && i < |rows| && rows[i].score > 0
    ensures Past(rows, rows[i].score, rows[i].id) == rows[i + 1..]
  {
    CursorOfRow(rows, i);
  }

  lemma TailAt(rows: seq<Entry>, i: nat, n: nat)
    requires Descending(rows, Newer) && i <= |rows| && 1 <= n <= |rows| - i && rows[i..][n - 1].score > 0
    ensures Past(rows, rows[i..][n - 1].score, rows[i..][n - 1].id) == rows[i..][n..]
  {
    TailOfTail(rows, i, n);
    TailBehind(rows, i + n - 1);
  }

  lemma TailAfterRow(rows: seq<Entry>, past: seq<Entry>, n: nat)
    requires Descending(rows, Newer) && IsTail(past, rows) && 1 <= n <= |past| && past[n - 1].score > 0
    ensures Past(rows, past[n - 1].score, past[n - 1].id) == past[n..]
  {
    var i :| 0 <= i <= |rows| && past == rows[i..];
    TailAt(rows, i, n);
  }

  lemma BackToTheTop(rows: seq<Entry>, latestTime: int, lastId: nat)
    requires latestTime <= 0
    ensures Past(rows, latestTime, lastId) == rows == Past(rows, 0, 0)
  {
    EverythingPast(rows, latestTime, lastId);
    EverythingPast(rows, 0, 0);
  }

  // The next page starts right behind this one exactly when the last row's time is positive; otherwise the client
  // is back at the first page.
  lemma NextPageFollowsOn(rows: seq<Entry>, limit: nat, latestTime: int, lastId: nat)
    requires limit >= 1 && Descending(rows, Newer) && Fetch(rows, limit, latestTime, lastId).hasMore
    ensures var page, past := Fetch(rows, limit, latestTime, lastId), Past(rows, latestTime, lastId);
            && |past| > limit
            && (Past(rows, page.nextTime, page.nextId) == past[limit..] <==> page.nextTime > 0)
            && (page.nextTime <= 0 ==> Fetch(rows, limit, page.nextTime, page.nextId) == Fetch(rows, limit, 0, 0))
  {
    var page, past := Fetch(rows, limit, latestTime, lastId), Past(rows, latestTime, lastId);
    FetchFacts(rows, limit, latestTime, lastId);
    if page.nextTime > 0 {
      PastIsTail(rows, latestTime, lastId);
      TailAfterRow(rows, past, limit);
    } else {
      BackToTheTop(rows, page.nextTime, page.nextId);
    }
  }

  // ---------------------------------------------------------------- the walk

  ghost predicate PositiveTimes(rows: seq<Entry>) {
    forall e :: e in rows ==> e.score > 0
  }

  lemma CursorIsARow(rows: seq<Entry>, limit: nat, latestTime: int, lastId: nat)
    requires limit >= 1 && Fetch(rows, limit, latestTime, lastId).hasMore
    ensures var page := Fetch(rows, limit, latestTime, lastId); Entry(page.nextId, page.nextTime) in rows
  {
    FetchFacts(rows, limit, latestTime, lastId);
    var past := Past(rows, latestTime, lastId);
    assert past[limit - 1] in past;
  }

  ghost function Walk(rows: seq<Entry>, limit: nat, latestTime: int, lastId: nat): seq<Page>
    requires limit >= 1 && Descending(rows, Newer) && PositiveTimes(rows)
    decreases |Past(rows, latestTime, lastId)|
  {
    var page := Fetch(rows, limit, latestTime, lastId);
    if page.hasMore then
      NextPageFollowsOn(rows, limit, latestTime, lastId);
      CursorIsARow(rows, limit, latestTime, lastId);
      [page] + Walk(rows, limit, page.nextTime, page.nextId)
    else [page]
  }

  function AllRows(pages: seq<Page>): seq<Entry> {
    if pages == [] then [] else pages[0].rows + AllRows(pages[1..])
  }

  lemma RowsOfFirst(page: Page, rest: seq<Page>)
    ensures AllRows([page] + rest) == page.rows + AllRows(rest)
    ensures rest == [] ==> AllRows([page]) == page.rows
  {
    assert ([page] + rest)[1..] == rest;
    assert [page] + [] == [page];
    assert page.rows + [] == page.rows;
  }

  lemma Rejoin(s: seq<Entry>, n: nat)
    requires n <= |s|
    ensures s[..n] + s[n..] == s
  {}

  lemma {:induction false} WalkFromCursor(rows: seq<Entry>, limit: nat, latestTime: int, lastId: nat)
    requires limit >= 1 && Descending(rows, Newer) && PositiveTimes(rows)
    ensures AllRows(Walk(rows, limit, latestTime, lastId)) == Past(rows, latestTime, lastId)
    decreases |Past(rows, latestTime, lastId)|
  {
    var page, past := Fetch(rows, limit, latestTime, lastId), Past(rows, latestTime, lastId);
    FetchFacts(rows, limit, latestTime, lastId);
    if page.hasMore {
      NextPageFollowsOn(rows, limit, latestTime, lastId);
      CursorIsARow(rows, limit, latestTime, lastId);
      WalkFromCursor(rows, limit, page.nextTime, page.nextId);
      RowsOfFirst(page, Walk(rows, limit, page.nextTime, page.nextId));
      Rejoin(past, limit);
    } else {
      RowsOfFirst(page, []);
    }
  }

  // From the first page on, every matching row is visited exactly once, newest first.
  lemma WalkVisitsEveryRowOnce(rows: seq<Entry>, limit: nat)
    requires limit >= 1 && Descending(rows, Newer) && PositiveTimes(rows)
    ensures AllRows(Walk(rows, limit, 0, 0)) == rows
    ensures Distinct(AllRows(Walk(rows, limit, 0, 0)))
  {
    WalkFromCursor(rows, limit, 0, 0);
    EverythingPast(rows, 0, 0);
    forall i, j | 0 <= i < j < |rows| ensures rows[i] != rows[j] {
      assert Newer(rows[i], rows[j]);
    }
  }

  // The videos the pages show, one page after the other.
  function AllShown(pages: seq<Page>, playable: set<nat>): seq<Entry> {
    if pages == [] then [] else Playable(pages[0].rows, playable) + AllShown(pages[1..], playable)
  }

  lemma {:induction false} ShownOfAllRows(pages: seq<Page>, playable: set<nat>)
    ensures AllShown(pages, playable) == Playable(AllRows(pages), playable)
  {
    if pages != [] {
      ShownOfAllRows(pages[1..], playable);
      PlayableConcat(pages[0].rows, AllRows(pages[1..]), playable);
    }
  }

  // Over a whole walk every playable matching row is shown, newest first and so exactly once, and nothing else is.
  lemma WalkShowsPlayableRowsOnce(rows: seq<Entry>, limit: nat, playable: set<nat>)
    requires limit >= 1 && Descending(rows, Newer) && PositiveTimes(rows)
    ensures var shown := AllShown(Walk(rows, limit, 0, 0), playable);
            && (forall e :: e in shown <==> e in rows && e.id in playable)
            && Descending(shown, Newer) && Distinct(shown)
  {
    WalkVisitsEveryRowOnce(rows, limit);
    ShownOfAllRows(Walk(rows, limit, 0, 0), playable);
    PlayableAre(rows, playable);
    PlayableKeepsOrder(rows, playable);
    var shown := Playable(rows, playable);
    forall i, j | 0 <= i < j < |shown| ensures shown[i] != shown[j] {
      assert Newer(shown[i], shown[j]);
    }
  }

  function CursorOf(page: Page): Entry {
    Entry(page.nextId, page.nextTime)
  }

  // Only the last page says there is no more; every page before it is full, and its cursor is strictly newer than
  // the next one's.
  ghost predicate MovesDown(pages: seq<Page>, limit: nat) {
    && pages != []
    && (forall i :: 0 <= i < |pages| ==> (pages[i].hasMore <==> i < |pages| - 1))
    && (forall i :: 0 <= i < |pages| - 1 ==> |pages[i].rows| == limit && Newer(CursorOf(pages[i]), CursorOf(pages[i + 1])))
  }

  lemma OnePageMore(page: Page, rest: seq<Page>, limit: nat)
    requires MovesDown(rest, limit) && page.hasMore && |page.rows| == limit && Newer(CursorOf(page), CursorOf(rest[0]))
    ensures MovesDown([page] + rest, limit)
  {
    var pages := [page] + rest;
    forall i | 0 <= i < |pages| ensures pages[i].hasMore <==> i < |pages| - 1 {
      assert i > 0 ==> pages[i] == rest[i - 1];
    }
    forall i | 0 <= i < |pages| - 1 ensures |pages[i].rows| == limit && Newer(CursorOf(pages[i]),
                                                                              CursorOf(pages[i + 1])) {
      assert pages[i + 1] == rest[i];
      assert i > 0 ==> pages[i] == rest[i - 1];
    }
  }

  lemma {:induction false} WalkMovesDown(rows: seq<Entry>, limit: nat, latestTime: int, lastId: nat)
    requires limit >= 1 && Descending(rows, Newer) && PositiveTimes(rows)
    ensures MovesDown(Walk(rows, limit, latestTime, lastId), limit)
    ensures Walk(rows, limit, latestTime, lastId)[0] == Fetch(rows, limit, latestTime, lastId)
    decreases |Past(rows, latestTime, lastId)|
  {
    var page := Fetch(rows, limit, latestTime, lastId);
    FetchFacts(rows, limit, latestTime, lastId);
    if page.hasMore {
      NextPageFollowsOn(rows, limit, latestTime, lastId);
      CursorIsARow(rows, limit, latestTime, lastId);
      WalkMovesDown(rows, limit, page.nextTime, page.nextId);
      NextCursorIsOlder(rows, limit, page.nextTime, page.nextId);
      OnePageMore(page, Walk(rows, limit, page.nextTime, page.nextId), limit);
    }
  }

  lemma NextCursorIsOlder(rows: seq<Entry>, limit: nat, latestTime: int, lastId: nat)
    requires limit >= 1 && latestTime > 0 && Past(rows, latestTime, lastId) != []
    ensures Newer(Entry(lastId, latestTime), CursorOf(Fetch(rows, limit, latestTime, lastId)))
  {
    FetchFacts(rows, limit, latestTime, lastId);
    var page, past := Fetch(rows, limit, latestTime, lastId), Past(rows, latestTime, lastId);
    assert page.rows[|page.rows| - 1] == past[|page.rows| - 1];
    assert past[|page.rows| - 1] in past;
  }
}
