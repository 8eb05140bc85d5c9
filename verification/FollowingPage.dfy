/**
 One page of the following feed out of the inbox and the pulled outboxes (feed/service.go listByFollowingFromInbox):
 a k-way merge of lists that were each read only in part.
*/
module FollowingPage {
  import opened Wrappers
  import opened Recency
  import opened Sorting
  import opened TopN
  import opened Inbox
  import opened FeedPaging

  datatype Video = Video(author: nat, created: int, playable: bool)

  datatype Author = Author(id: nat, followers: int)

  datatype Settings = Settings(pullThreshold: int, maxPullAuthors: nat, inboxMaxSize: nat)

  // The sorted sets in rank order, and the approved videos by id.
  datatype Stores = Stores(inbox: seq<Entry>, outboxes: map<nat, seq<Entry>>, videos: map<nat, Video>)

  // ---------------------------------------------------------------- reading a sorted set

  const READ_FACTOR := 4
  const READ_CAP := 200

  // followingReadCount
  function ReadCount(limit: int): (r: int)
    ensures 1 <= limit <= 50 ==> r == 4 * limit
    ensures limit >= 1 ==> r >= 1
  {
    var count := if limit * READ_FACTOR < limit then limit else limit * READ_FACTOR;
    if count > READ_CAP then READ_CAP else count
  }

  predicate InRange(e: Entry, latestTime: int) {
    latestTime <= 0 || e.score <= latestTime
  }

  function UpTo(z: seq<Entry>, latestTime: int): (r: seq<Entry>)
    ensures forall e :: e in r <==> e in z && InRange(e, latestTime)
    ensures |r| <= |z|
  {
    if z == [] then []
    else
      assert z == [z[0]] + z[1..];
      if InRange(z[0], latestTime) then [z[0]] + UpTo(z[1..], latestTime) else UpTo(z[1..], latestTime)
  }

  // ZREVRANGEBYSCORE key latestTime -inf LIMIT 0 count
  function Range(z: seq<Entry>, latestTime: int, count: nat): seq<Entry> {
    FirstN(UpTo(z, latestTime), count)
  }

  datatype List = InboxList | OutboxOf(author: nat)

  function Source(st: Stores, k: List): seq<Entry> {
    match k
    case InboxList => st.inbox
    case OutboxOf(a) => if a != 0 && a in st.outboxes then st.outboxes[a] else []
  }

  function Read(st: Stores, k: List, req: Request): seq<Entry>
    requires req.limit >= 1
  {
    Range(Source(st, k), req.latestTime, ReadCount(req.limit))
  }

  predicate Truncated(st: Stores, k: List, req: Request)
    requires req.limit >= 1
  {
    |Read(st, k, req)| >= ReadCount(req.limit)
  }

  // ---------------------------------------------------------------- what a page may show

  function Pulled(authors: seq<Author>, threshold: int): (r: seq<nat>)
    ensures forall a :: a in r <==> exists i :: 0 <= i < |authors| && authors[i].id == a && authors[i].followers >= threshold
  {
    if authors == [] then []
    else
      var n := |authors| - 1;
      assert authors == authors[..n] + [authors[n]];
      if authors[n].followers >= threshold then Pulled(authors[..n], threshold) + [authors[n].id]
      else Pulled(authors[..n], threshold)
  }

  function Followed(authors: seq<Author>): set<nat> {
    set i | 0 <= i < |authors| :: authors[i].id
  }

  function VideoRow(st: Stores, id: nat): Entry
    requires id in st.videos
  {
    Entry(id, st.videos[id].created)
  }

  predicate IsShown(st: Stores, followed: set<nat>, req: Request, id: nat) {
    && id in st.videos && st.videos[id].author in followed
    && IncludeTimeCursor(VideoRow(st, id), req.latestTime, req.lastId)
    && st.videos[id].playable
  }

  // Unapproved or deleted, unfollowed, or (inside the cursor) unplayable: removed from the inbox on the way.
  predicate IsStale(st: Stores, followed: set<nat>, req: Request, id: nat) {
    || id !in st.videos
    || st.videos[id].author !in followed
    || (IncludeTimeCursor(VideoRow(st, id), req.latestTime, req.lastId) && !st.videos[id].playable)
  }

  // Past the cursor a video is either shown or removed; behind it, one that is still followed is kept for later.
  lemma ShownOrStale(st: Stores, followed: set<nat>, req: Request, id: nat)
    ensures var outside := id in st.videos && st.videos[id].author in followed
                           && !IncludeTimeCursor(VideoRow(st, id), req.latestTime, req.lastId);
            if outside then !IsShown(st, followed, req, id) && !IsStale(st, followed, req, id)
            else IsShown(st, followed, req, id) <==> !IsStale(st, followed, req, id)
  {}

  function Shown(st: Stores, followed: set<nat>, req: Request, ids: set<nat>): set<Entry> {
    set id | id in ids && IsShown(st, followed, req, id) :: VideoRow(st, id)
  }

  function ReadIds(st: Stores, sources: set<List>, req: Request): set<nat>
    requires req.limit >= 1
  {
    set k, e | k in sources && e in Read(st, k, req) :: e.id
  }

  function HeldIds(st: Stores, sources: set<List>): set<nat> {
    set k, e | k in sources && e in Source(st, k) :: e.id
  }

  // ---------------------------------------------------------------- the merge

  predicate NotOlder(x: Entry, y: Entry) {
    x.score > y.score || (x.score == y.score && x.id >= y.id)
  }

  lemma SortedIsDescending(s: seq<Entry>)
    requires Distinct(s)
    ensures Descending(Sort(s, NotOlder), Newer)
    ensures SetOf(Sort(s, NotOlder)) == SetOf(s)
  {
    SortSorted(s, NotOlder);
    SortPermutes(s, NotOlder);
    SortMembers(s, NotOlder);
    var r := Sort(s, NotOlder);
    DistinctByCount(s, r);
    forall i, j | 0 <= i < j < |r| ensures Newer(r[i], r[j]) {
      assert NotOlder(r[i], r[j]) && r[i] != r[j];
    }
  }

  ghost predicate IsFirst(page: seq<Entry>, all: set<Entry>, limit: nat) {
    Descending(page, Newer) && SetOf(page) == Top(all, Newer, limit)
  }

  lemma PageOfSorted(rows: seq<Entry>, all: set<Entry>, limit: nat)
    requires Descending(rows, Newer) && SetOf(rows) == all && limit >= 1
    ensures IsPageOf(PageOf(rows, limit), all, limit)
  {
    NewerIsStrictTotal();
    if |rows| <= limit {
      PrefixIsTop(rows, Newer, |rows|);
      TopIsFixed(all, Newer, limit);
    } else {
      PrefixIsTop(rows, Newer, limit);
    }
  }

  function Sources(pulled: seq<nat>): set<List> {
    {InboxList} + set a | a in pulled :: OutboxOf(a)
  }

  ghost predicate AnyTruncated(st: Stores, sources: set<List>, req: Request)
    requires req.limit >= 1
  {
    exists k :: k in sources && Truncated(st, k, req)
  }

  // listByFollowingFromInbox, once the inbox is known to be maintained. None sends the caller to MySQL.
  method ListByFollowingFromInbox(st: Stores, authors: seq<Author>, cfg: Settings, req: Request)
    returns (r: Option<Page>, stale: seq<nat>)
    requires req.limit >= 1
    ensures authors == [] ==> r == Some(Page([], false, 0, 0)) && stale == []
    ensures authors != [] && |Pulled(authors, cfg.pullThreshold)| > cfg.maxPullAuthors ==> r == None && stale == []
    ensures authors != [] && |Pulled(authors, cfg.pullThreshold)| <= cfg.maxPullAuthors ==>
              IsAnswer(st, authors, cfg, req, r, stale)
  {
    stale := [];
    if |authors| == 0 {
      return Some(Page([], false, 0, 0)), [];
    }
    var followed: set<nat>, pulled := {}, [];
    for i := 0 to |authors|
      invariant followed == Followed(authors[..i]) && pulled == Pulled(authors[..i], cfg.pullThreshold)
    {
      assert authors[..i + 1][..i] == authors[..i];
      followed := followed + {authors[i].id};
      if authors[i].followers >= cfg.pullThreshold {
        pulled := pulled + [authors[i].id];
      }
    }
    assert authors[..|authors|] == authors;
    if |pulled| > cfg.maxPullAuthors {
      return None, [];
    }
    var candidateIds, truncated := ReadSources(st, pulled, req);
    var candidates;
    candidates, stale := Filter(st, followed, req, candidateIds);
    SortedIsDescending(candidates);
    candidates := Sort(candidates, NotOlder);
    ghost var shown := Shown(st, followed, req, SetOf(candidateIds));
    PageOfSorted(candidates, shown, req.limit);
    var page := PageOf(candidates, req.limit);
    if !page.hasMore && (truncated || |st.inbox| >= cfg.inboxMaxSize) {
      r := None;
    } else {
      r := Some(page);
    }
  }

  ghost predicate IsAnswer(st: Stores, authors: seq<Author>, cfg: Settings, req: Request, r: Option<Page>,
                           stale: seq<nat>)
    requires req.limit >= 1
  {
    var sources := Sources(Pulled(authors, cfg.pullThreshold));
    var ids := ReadIds(st, sources, req);
    var shown := Shown(st, Followed(authors), req, ids);
    && (forall id :: id in stale <==> id in ids && IsStale(st, Followed(authors), req, id))
    && (r.None? <==> |shown| <= req.limit && (AnyTruncated(st, sources, req) || |st.inbox| >= cfg.inboxMaxSize))
    && (r.Some? ==> IsPageOf(r.value, shown, req.limit))
  }

  ghost predicate IsPageOf(page: Page, shown: set<Entry>, limit: nat) {
    && IsFirst(page.rows, shown, limit)
    && page.hasMore == (|shown| > limit)
    && (page.rows == [] ==> page.nextTime == 0 && page.nextId == 0)
    && (page.rows != [] ==> page.rows[|page.rows| - 1] == Entry(page.nextId, page.nextTime))
  }

  lemma OneMoreSource(st: Stores, sources: set<List>, k: List, req: Request)
    requires req.limit >= 1
    ensures forall id :: id in ReadIds(st, sources + {k}, req) <==>
              id in ReadIds(st, sources, req) || exists e :: e in Read(st, k, req) && e.id == id
    ensures AnyTruncated(st, sources + {k}, req) <==> AnyTruncated(st, sources, req) || Truncated(st, k, req)
    ensures ReadIds(st, {}, req) == {}
  {}

  // The seen map: every id read from some source, once, in the order first met.
  method ReadSources(st: Stores, pulled: seq<nat>, req: Request) returns (ids: seq<nat>, truncated: bool)
    requires req.limit >= 1
    ensures Distinct(ids) && SetOf(ids) == ReadIds(st, Sources(pulled), req)
    ensures truncated <==> AnyTruncated(st, Sources(pulled), req)
  {
    var inboxRead := Read(st, InboxList, req);
    truncated := |inboxRead| >= ReadCount(req.limit);
    ids := AppendCandidates([], inboxRead);
    OneMoreSource(st, {}, InboxList, req);
    for i := 0 to |pulled|
      invariant Distinct(ids) && SetOf(ids) == ReadIds(st, Sources(pulled[..i]), req)
      invariant truncated <==> AnyTruncated(st, Sources(pulled[..i]), req)
    {
      var outboxRead := Read(st, OutboxOf(pulled[i]), req);
      assert Sources(pulled[..i + 1]) == Sources(pulled[..i]) + {OutboxOf(pulled[i])} by {
        assert pulled[..i + 1] == pulled[..i] + [pulled[i]];
      }
      OneMoreSource(st, Sources(pulled[..i]), OutboxOf(pulled[i]), req);
      truncated := truncated || |outboxRead| >= ReadCount(req.limit);
      ids := AppendCandidates(ids, outboxRead);
    }
    assert pulled[..|pulled|] == pulled;
  }

  method AppendCandidates(before: seq<nat>, read: seq<Entry>) returns (ids: seq<nat>)
    requires Distinct(before)
    ensures Distinct(ids) && before <= ids
    ensures forall id :: id in ids <==> id in before || exists e :: e in read && e.id == id
  {
    ids := before;
    for i := 0 to |read|
      invariant Distinct(ids) && before <= ids
      invariant forall id :: id in ids <==> id in before || exists e :: e in read[..i] && e.id == id
    {
      assert read[..i + 1] == read[..i] + [read[i]];
      if read[i].id !in ids {
        ids := ids + [read[i].id];
      }
    }
    assert read[..|read|] == read;
  }

  lemma OneMoreShown(st: Stores, followed: set<nat>, req: Request, ids: set<nat>, id: nat)
    ensures Shown(st, followed, req, ids + {id})
              == Shown(st, followed, req, ids) + (if IsShown(st, followed, req, id) then {VideoRow(st, id)} else {})
    ensures id !in ids && id in st.videos ==> VideoRow(st, id) !in Shown(st, followed, req, ids)
  {}

  method Filter(st: Stores, followed: set<nat>, req: Request, ids: seq<nat>)
    returns (candidates: seq<Entry>, stale: seq<nat>)
    requires Distinct(ids)
    ensures Distinct(candidates) && SetOf(candidates) == Shown(st, followed, req, SetOf(ids))
    ensures forall id :: id in stale <==> id in ids && IsStale(st, followed, req, id)
  {
    candidates, stale := [], [];
    for i := 0 to |ids|
      invariant Distinct(candidates) && SetOf(candidates) == Shown(st, followed, req, SetOf(ids[..i]))
      invariant forall id :: id in stale <==> id in ids[..i] && IsStale(st, followed, req, id)
    {
      var id := ids[i];
      assert ids[..i + 1] == ids[..i] + [id];
      assert SetOf(ids[..i + 1]) == SetOf(ids[..i]) + {id};
      OneMoreShown(st, followed, req, SetOf(ids[..i]), id);
      if id !in st.videos {
        stale := stale + [id];
      } else if st.videos[id].author !in followed {
        stale := stale + [id];
      } else if !IncludeTimeCursor(VideoRow(st, id), req.latestTime, req.lastId) {
      } else if !st.videos[id].playable {
        stale := stale + [id];
      } else {
        candidates := candidates + [VideoRow(st, id)];
      }
    }
    assert ids[..|ids|] == ids;
  }
}
