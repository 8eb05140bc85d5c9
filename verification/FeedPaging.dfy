/** What every feed page shares (feed/service.go): limits, the time cursor, and cutting a page off a longer list. */
module FeedPaging {
  import opened Inbox

  datatype Request = Request(limit: int, latestTime: int, lastId: nat)

  // nextTime and nextId are 0 on an empty page.
  datatype Page = Page(rows: seq<Entry>, hasMore: bool, nextTime: int, nextId: nat)

  function NormalizeLimit(limit: int): (r: int)
    ensures 1 <= r <= 50
    ensures 1 <= limit <= 50 ==> r == limit
    ensures (limit > 50 ==> r == 50) && (limit <= 0 ==> r == 10)
  {
    if limit <= 0 then 10 else if limit > 50 then 50 else limit
  }

  // includeTimeCursor, the cursor over videos already in memory.
  predicate IncludeTimeCursor(v: Entry, latestTime: int, lastId: nat) {
    latestTime <= 0 || v.score < latestTime || (v.score == latestTime && (lastId == 0 || v.id < lastId))
  }

  // The cursor inside the keyset queries.
  predicate SqlCursor(v: Entry, latestTime: int, lastId: nat) {
    latestTime <= 0 || v.score < latestTime || (v.score == latestTime && v.id < lastId)
  }

  // The two cursors part ways exactly on a time without an id: memory takes the videos of that millisecond again,
  // the query leaves them all out.
  lemma CursorsAgree(latestTime: int, lastId: nat)
    ensures (forall v :: IncludeTimeCursor(v, latestTime, lastId) == SqlCursor(v, latestTime, lastId))
              <==> (latestTime <= 0 || lastId != 0)
  {
    var v := Entry(0, latestTime);
    assert latestTime > 0 && lastId == 0 ==> IncludeTimeCursor(v, latestTime, lastId) && !SqlCursor(v, latestTime, lastId);
  }

  // trimVideoPage
  function TrimPage(rows: seq<Entry>, limit: int): seq<Entry> {
    if limit <= 0 || |rows| <= limit then rows else rows[..limit]
  }

  // The page and the cursor of the next one.
  function PageOf(rows: seq<Entry>, limit: int): Page {
    var page := TrimPage(rows, limit);
    if page == [] then Page([], false, 0, 0)
    else Page(page, limit >= 1 && |rows| > limit, page[|page| - 1].score, page[|page| - 1].id)
  }
}
