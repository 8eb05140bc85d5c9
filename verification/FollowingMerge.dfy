/** When a page of the following feed is the true head of everything the stores hold, and exactly when it may not be. */
module FollowingMerge {
  import opened Wrappers
  import opened DecimalOrder
  import opened GoText
  import opened TopN
  import opened Inbox
  import opened FeedPaging
  import opened FollowingPage

  // What the inbox and the pulled outboxes hold past the cursor.
  function Live(st: Stores, followed: set<nat>, sources: set<List>, req: Request): set<Entry> {
    Shown(st, followed, req, HeldIds(st, sources))
  }

  // Sorted sets list their members in rank order, and a member's score is its video's creation time.
  ghost predicate WellKept(st: Stores, sources: set<List>) {
    forall k :: k in sources ==> SourceKept(st, k)
  }

  ghost predicate SourceKept(st: Stores, k: List) {
    && Descending(Source(st, k), Above)
    && forall e :: e in Source(st, k) ==> e.id > 0 && (e.id in st.videos ==> e.score == st.videos[e.id].created)
  }

  function Oldest(st: Stores, k: List, req: Request): Entry
    requires req.limit >= 1 && Truncated(st, k, req)
  {
    Read(st, k, req)[|Read(st, k, req)| - 1]
  }

  // ---------------------------------------------------------------- what was not read

  lemma {:induction false} UpToDescending(z: seq<Entry>, latestTime: int)
    requires Descending(z, Above)
    ensures Descending(UpTo(z, latestTime), Above)
  {
    if z != [] {
      assert Descending(z[1..], Above) by {
        assert forall i :: 0 <= i < |z| - 1 ==> z[1..][i] == z[i + 1];
      }
      UpToDescending(z[1..], latestTime);
      var rest := UpTo(z[1..], latestTime);
      forall j | 0 <= j < |rest| ensures Above(z[0], rest[j]) {
        assert rest[j] in z[1..];
        var i :| 0 <= i < |z| - 1 && z[1..][i] == rest[j];
        assert Above(z[0], z[i + 1]);
      }
    }
  }

  lemma {:induction false} UpToAll(z: seq<Entry>, latestTime: int)
    requires forall e :: e in z ==> InRange(e, latestTime)
    ensures UpTo(z, latestTime) == z
  {
    if z != [] {
      assert z == [z[0]] + z[1..];
      UpToAll(z[1..], latestTime);
    }
  }

  lemma ReadFacts(st: Stores, k: List, req: Request)
    requires req.limit >= 1 && Descending(Source(st, k), Above)
    ensures Descending(Read(st, k, req), Above) && |Read(st, k, req)| <= ReadCount(req.limit)
    ensures forall e :: e in Read(st, k, req) ==> e in Source(st, k) && InRange(e, req.latestTime)
  {
    var all, read := UpTo(Source(st, k), req.latestTime), Read(st, k, req);
    UpToDescending(Source(st, k), req.latestTime);
    assert forall i :: 0 <= i < |read| ==> read[i] == all[i];
  }

  // Whatever is in range but was not read lies behind the oldest entry of a full read.
  lemma UnreadIsBehind(st: Stores, k: List, req: Request, e: Entry)
    requires req.limit >= 1 && Descending(Source(st, k), Above)
    requires e in Source(st, k) && InRange(e, req.latestTime) && e !in Read(st, k, req)
    ensures Truncated(st, k, req) && Above(Oldest(st, k, req), e)
  {
    var all, read := UpTo(Source(st, k), req.latestTime), Read(st, k, req);
    UpToDescending(Source(st, k), req.latestTime);
    assert e in all;
    var i :| 0 <= i < |all| && all[i] == e;
    assert i >= |read| by {
      assert forall j :: 0 <= j < |read| ==> read[j] == all[j] && read[j] in read;
    }
  }

  lemma ShownIsInRange(st: Stores, followed: set<nat>, req: Request, k: List, e: Entry, sources: set<List>)
    requires WellKept(st, sources) && k in sources && e in Source(st, k) && IsShown(st, followed, req, e.id)
    ensures InRange(e, req.latestTime) && VideoRow(st, e.id) == e
  {
    assert SourceKept(st, k);
  }

  // A live video that is not among the videos read sits unread in some truncated source.
  lemma UnreadLive(st: Stores, followed: set<nat>, sources: set<List>, req: Request, y: Entry) returns (k: List)
    requires req.limit >= 1 && WellKept(st, sources)
    requires y in Live(st, followed, sources, req) && y !in Shown(st, followed, req, ReadIds(st, sources, req))
    ensures k in sources && Truncated(st, k, req) && Above(Oldest(st, k, req), y)
    ensures y.id > 0 && y.id !in ReadIds(st, sources, req) && IsShown(st, followed, req, y.id)
            && VideoRow(st, y.id) == y
  {
    var id :| id in HeldIds(st, sources) && IsShown(st, followed, req, id) && VideoRow(st, id) == y;
    var j, e :| j in sources && e in Source(st, j) && e.id == id;
    k := j;
    ShownIsInRange(st, followed, req, k, e, sources);
    assert id !in ReadIds(st, sources, req);
    assert SourceKept(st, k);
    UnreadIsBehind(st, k, req, e);
  }

  lemma ReadIsHeld(st: Stores, followed: set<nat>, sources: set<List>, req: Request)
    requires req.limit >= 1 && WellKept(st, sources)
    ensures Shown(st, followed, req, ReadIds(st, sources, req)) <= Live(st, followed, sources, req)
  {
    forall id | id in ReadIds(st, sources, req) ensures id in HeldIds(st, sources) {
      var k, e :| k in sources && e in Read(st, k, req) && e.id == id;
      assert SourceKept(st, k);
      ReadFacts(st, k, req);
      assert e in Source(st, k);
    }
  }

  // ---------------------------------------------------------------- the last page

  // An answer without a next page shows everything the stores hold past the cursor.
  lemma NoMoreMeansNothingLeft(st: Stores, authors: seq<Author>, cfg: Settings, req: Request, page: Page,
                               stale: seq<nat>)
    requires req.limit >= 1 && IsAnswer(st, authors, cfg, req, Some(page), stale) && !page.hasMore
    requires WellKept(st, Sources(Pulled(authors, cfg.pullThreshold)))
    ensures SetOf(page.rows) == Live(st, Followed(authors), Sources(Pulled(authors, cfg.pullThreshold)), req)
  {
    var sources, followed := Sources(Pulled(authors, cfg.pullThreshold)), Followed(authors);
    var shown := Shown(st, followed, req, ReadIds(st, sources, req));
    NewerIsStrictTotal();
    TopIsFixed(shown, Newer, req.limit);
    ReadIsHeld(st, followed, sources, req);
    forall y | y in Live(st, followed, sources, req) ensures y in shown {
      if y !in shown {
        var k := UnreadLive(st, followed, sources, req, y);
        assert false;
      }
    }
  }

  // ---------------------------------------------------------------- a page with more to come

  // The other stores that would have produced the same reads.
  ghost predicate SameReads(st: Stores, st': Stores, sources: set<List>, req: Request)
    requires req.limit >= 1
  {
    && (forall k :: k in sources ==> Read(st', k, req) == Read(st, k, req))
    && (forall id :: id in ReadIds(st, sources, req) ==>
          (id in st'.videos <==> id in st.videos) && (id in st.videos ==> st'.videos[id] == st.videos[id]))
  }

  // Something newer than the page's last row would fit behind the oldest entry read.
  ghost predicate Room(oldest: Entry, last: Entry, ids: set<nat>, req: Request) {
    exists e: Entry :: e.id > 0 && e.id !in ids && Newer(e, last) && Above(oldest, e)
                       && IncludeTimeCursor(e, req.latestTime, req.lastId)
  }

  ghost predicate MayMiss(st: Stores, sources: set<List>, last: Entry, req: Request)
    requires req.limit >= 1
  {
    exists k :: k in sources && Truncated(st, k, req)
                && Room(Oldest(st, k, req), last, ReadIds(st, sources, req), req)
  }

  lemma SameShown(st: Stores, st': Stores, followed: set<nat>, sources: set<List>, req: Request)
    requires req.limit >= 1 && SameReads(st, st', sources, req)
    ensures ReadIds(st', sources, req) == ReadIds(st, sources, req)
    ensures Shown(st', followed, req, ReadIds(st, sources, req)) == Shown(st, followed, req, ReadIds(st, sources, req))
  {}

  lemma LastOfPage(page: Page, shown: set<Entry>, limit: nat)
    requires IsPageOf(page, shown, limit) && page.hasMore && limit >= 1
    ensures |page.rows| == limit && page.rows[limit - 1] == Entry(page.nextId, page.nextTime)
    ensures Entry(page.nextId, page.nextTime) in Top(shown, Newer, limit)
    ensures forall x :: x in Top(shown, Newer, limit) ==>
              x == Entry(page.nextId, page.nextTime) || Newer(x, Entry(page.nextId, page.nextTime))
  {
    NewerIsStrictTotal();
    TopSize(shown, Newer, limit);
    PrefixIsTop(page.rows, Newer, |page.rows|);
    var last := page.rows[|page.rows| - 1];
    assert last in SetOf(page.rows);
    forall x | x in Top(shown, Newer, limit) ensures x == last || Newer(x, last) {
      assert x in page.rows;
    }
  }

  lemma SameOldest(st: Stores, st': Stores, sources: set<List>, k: List, req: Request)
    requires req.limit >= 1 && SameReads(st, st', sources, req) && k in sources && Truncated(st', k, req)
    ensures Truncated(st, k, req) && Oldest(st', k, req) == Oldest(st, k, req)
  {
    assert Read(st', k, req) == Read(st, k, req);
  }

  lemma NoRoomMeansOlder(oldest: Entry, last: Entry, ids: set<nat>, req: Request, y: Entry)
    requires !Room(oldest, last, ids, req) && y.id > 0 && y.id !in ids && Above(oldest, y) && y != last
    requires IncludeTimeCursor(y, req.latestTime, req.lastId)
    ensures Newer(last, y)
  {
    assert !Newer(y, last);
  }

  lemma UnreadIsOlder(st: Stores, st': Stores, followed: set<nat>, sources: set<List>, req: Request, last: Entry,
                      y: Entry)
    requires req.limit >= 1 && WellKept(st', sources) && SameReads(st, st', sources, req)
    requires !MayMiss(st, sources, last, req)
    requires y in Live(st', followed, sources, req) && y !in Shown(st', followed, req, ReadIds(st', sources, req))
    requires y != last
    ensures Newer(last, y)
  {
    var k := UnreadLive(st', followed, sources, req, y);
    SameShown(st, st', followed, sources, req);
    SameOldest(st, st', sources, k, req);
    NoRoomMeansOlder(Oldest(st, k, req), last, ReadIds(st, sources, req), req, y);
  }

  // With no room for a newer unread video, the page is the head of the full merge in every store that reads alike.
  lemma EnoughWasRead(st: Stores, st': Stores, followed: set<nat>, sources: set<List>, req: Request, page: Page)
    requires req.limit >= 1 && WellKept(st', sources) && SameReads(st, st', sources, req) && page.hasMore
    requires IsPageOf(page, Shown(st, followed, req, ReadIds(st, sources, req)), req.limit)
    requires !MayMiss(st, sources, Entry(page.nextId, page.nextTime), req)
    ensures IsFirst(page.rows, Live(st', followed, sources, req), req.limit)
  {
    var shown, live := Shown(st, followed, req, ReadIds(st, sources, req)), Live(st', followed, sources, req);
    var last := Entry(page.nextId, page.nextTime);
    SameShown(st, st', followed, sources, req);
    ReadIsHeld(st', followed, sources, req);
    LastOfPage(page, shown, req.limit);
    forall y | y in live && y !in shown ensures Newer(last, y) {
      UnreadIsOlder(st, st', followed, sources, req, last, y);
    }
    HeadStaysHead(page, shown, live, req.limit);
  }

  lemma HeadStaysHead(page: Page, shown: set<Entry>, live: set<Entry>, limit: nat)
    requires limit >= 1 && IsPageOf(page, shown, limit) && page.hasMore && shown <= live
    requires forall y :: y in live && y !in shown ==> Newer(Entry(page.nextId, page.nextTime), y)
    ensures IsFirst(page.rows, live, limit)
  {
    NewerIsStrictTotal();
    LastOfPage(page, shown, limit);
    TopIgnoresLower(shown, live, Newer, limit, Entry(page.nextId, page.nextTime));
    assert shown + live == live;
  }

  // ---------------------------------------------------------------- the hidden video

  // The stores cut down to what was read, with one more video behind source k.
  function WithHidden(st: Stores, sources: set<List>, req: Request, k: List, author: nat, e: Entry): Stores
    requires req.limit >= 1
  {
    Stores(
      Behind(Read(st, InboxList, req), k == InboxList, e),
      map a | a in st.outboxes :: Behind(Read(st, OutboxOf(a), req), k == OutboxOf(a), e),
      st.videos[e.id := Video(author, e.score, true)])
  }

  function Behind(read: seq<Entry>, here: bool, e: Entry): seq<Entry> {
    if here then read + [e] else read
  }

  lemma HiddenSource(st: Stores, sources: set<List>, req: Request, k: List, author: nat, e: Entry, j: List)
    requires req.limit >= 1 && Truncated(st, k, req)
    ensures Source(WithHidden(st, sources, req, k, author, e), j) == Behind(Read(st, j, req), j == k, e)
  {
    assert Source(st, j) == [] ==> Read(st, j, req) == [];
  }

  lemma RangeOfRead(z: seq<Entry>, extra: seq<Entry>, latestTime: int, count: nat)
    requires forall e :: e in z + extra ==> InRange(e, latestTime)
    requires |z| <= count && (extra != [] ==> |z| == count)
    ensures Range(z + extra, latestTime, count) == z
  {
    UpToAll(z + extra, latestTime);
  }

  lemma HiddenReadsAlike(st: Stores, sources: set<List>, req: Request, k: List, author: nat, e: Entry)
    requires req.limit >= 1 && WellKept(st, sources) && k in sources && InboxList in sources && Truncated(st, k, req)
    requires e.id !in ReadIds(st, sources, req) && InRange(e, req.latestTime)
    ensures SameReads(st, WithHidden(st, sources, req, k, author, e), sources, req)
  {
    var st' := WithHidden(st, sources, req, k, author, e);
    forall j | j in sources ensures Read(st', j, req) == Read(st, j, req) {
      assert SourceKept(st, j);
      ReadFacts(st, j, req);
      var read := Read(st, j, req);
      var extra := if j == k then [e] else [];
      assert read + [] == read;
      HiddenSource(st, sources, req, k, author, e, j);
      RangeOfRead(read, extra, req.latestTime, ReadCount(req.limit));
    }
  }

  lemma HiddenSourceKept(st: Stores, sources: set<List>, req: Request, k: List, author: nat, e: Entry, j: List)
    requires req.limit >= 1 && SourceKept(st, j) && j in sources && InboxList in sources && Truncated(st, k, req)
    requires e.id > 0 && e.id !in ReadIds(st, sources, req) && Above(Oldest(st, k, req), e)
    ensures SourceKept(WithHidden(st, sources, req, k, author, e), j)
  {
    var st' := WithHidden(st, sources, req, k, author, e);
    var read := Read(st, j, req);
    ReadFacts(st, j, req);
    HiddenSource(st, sources, req, k, author, e, j);
    forall x | x in Source(st', j) ensures x.id > 0 && (x.id in st'.videos ==> x.score == st'.videos[x.id].created) {
      if x in read {
        assert x.id in ReadIds(st, sources, req);
      }
    }
    HiddenDescends(st, req, k, e, j);
  }

  lemma HiddenDescends(st: Stores, req: Request, k: List, e: Entry, j: List)
    requires req.limit >= 1 && Descending(Source(st, j), Above) && Truncated(st, k, req) && Above(Oldest(st, k, req), e)
    ensures Descending(Behind(Read(st, j, req), j == k, e), Above)
  {
    ReadFacts(st, j, req);
    if j == k {
      AboveIsStrictTotal();
      BehindLast(Read(st, j, req), e);
    }
  }

  lemma HiddenIsWellKept(st: Stores, sources: set<List>, req: Request, k: List, author: nat, e: Entry)
    requires req.limit >= 1 && WellKept(st, sources) && k in sources && InboxList in sources && Truncated(st, k, req)
    requires e.id > 0 && e.id !in ReadIds(st, sources, req) && Above(Oldest(st, k, req), e)
    ensures WellKept(WithHidden(st, sources, req, k, author, e), sources)
  {
    forall j | j in sources ensures SourceKept(WithHidden(st, sources, req, k, author, e), j) {
      assert SourceKept(st, j);
      HiddenSourceKept(st, sources, req, k, author, e, j);
    }
  }

  lemma BehindLast(read: seq<Entry>, e: Entry)
    requires StrictTotal(Above) && Descending(read, Above) && read != [] && Above(read[|read| - 1], e)
    ensures Descending(read + [e], Above)
  {
    var n := |read|;
    forall i | 0 <= i < n ensures Above(read[i], e) {
      assert i == n - 1 || Above(read[i], read[n - 1]);
    }
  }

  lemma HiddenIsLive(st: Stores, followed: set<nat>, sources: set<List>, req: Request, k: List, author: nat, e: Entry)
    requires req.limit >= 1 && k in sources && author in followed && Truncated(st, k, req)
    requires IncludeTimeCursor(e, req.latestTime, req.lastId)
    ensures e in Live(WithHidden(st, sources, req, k, author, e), followed, sources, req)
  {
    var st' := WithHidden(st, sources, req, k, author, e);
    HiddenSource(st, sources, req, k, author, e, k);
    assert e in Source(st', k) by {
      assert (Read(st, k, req) + [e])[|Read(st, k, req)|] == e;
    }
    assert e.id in HeldIds(st', sources);
    assert IsShown(st', followed, req, e.id) && VideoRow(st', e.id) == e;
  }

  // A live row newer than the page's last one that the page does not show: the page is not the head of the merge.
  lemma MissedRow(page: Page, shown: set<Entry>, live: set<Entry>, limit: nat, e: Entry)
    requires limit >= 1 && IsPageOf(page, shown, limit) && page.hasMore
    requires e in live && e !in shown && Newer(e, Entry(page.nextId, page.nextTime))
    ensures !IsFirst(page.rows, live, limit)
  {
    LastOfPage(page, shown, limit);
    NewerIsStrictTotal();
    var last := Entry(page.nextId, page.nextTime);
    if SetOf(page.rows) == Top(live, Newer, limit) {
      var kept := Top(live, Newer, limit);
      assert last in kept;
      assert e !in kept by {
        assert SetOf(page.rows) == Top(shown, Newer, limit);
      }
      CutBehindKept(live, Newer, limit, e);
      TopSize(live, Newer, limit);
      SubsetCard(Better(kept, Newer, e), kept);
      assert false;
    }
  }

  lemma HiddenVideoExists(st: Stores, followed: set<nat>, sources: set<List>, req: Request, page: Page,
                          k: List, author: nat, e: Entry)
    requires req.limit >= 1 && WellKept(st, sources) && page.hasMore && InboxList in sources && author in followed
    requires IsPageOf(page, Shown(st, followed, req, ReadIds(st, sources, req)), req.limit)
    requires k in sources && Truncated(st, k, req) && Above(Oldest(st, k, req), e)
    requires e.id > 0 && e.id !in ReadIds(st, sources, req)
    requires Newer(e, Entry(page.nextId, page.nextTime)) && IncludeTimeCursor(e, req.latestTime, req.lastId)
    ensures var st' := WithHidden(st, sources, req, k, author, e);
            && WellKept(st', sources) && SameReads(st, st', sources, req)
            && !IsFirst(page.rows, Live(st', followed, sources, req), req.limit)
  {
    var st' := WithHidden(st, sources, req, k, author, e);
    HiddenReadsAlike(st, sources, req, k, author, e);
    HiddenIsWellKept(st, sources, req, k, author, e);
    HiddenIsLive(st, followed, sources, req, k, author, e);
    MissedRow(page, Shown(st, followed, req, ReadIds(st, sources, req)), Live(st', followed, sources, req), req.limit,
              e);
  }

  // ---------------------------------------------------------------- the exact condition

  // The row a page of this size ends with.
  ghost predicate IsNth(shown: set<Entry>, n: nat, x: Entry) {
    x in shown && |Better(shown, Newer, x)| + 1 == n
  }

  lemma PageEndsWithNth(page: Page, shown: set<Entry>, limit: nat, x: Entry)
    requires limit >= 1 && IsPageOf(page, shown, limit) && page.hasMore && IsNth(shown, limit, x)
    ensures x == Entry(page.nextId, page.nextTime)
  {
    LastOfPage(page, shown, limit);
    var last := Entry(page.nextId, page.nextTime);
    assert x in Top(shown, Newer, limit);
    if x != last {
      assert Better(shown, Newer, x) + {x} <= Better(shown, Newer, last);
      SubsetCard(Better(shown, Newer, x) + {x}, Better(shown, Newer, last));
    }
  }

  lemma NthExists(page: Page, shown: set<Entry>, limit: nat)
    requires limit >= 1 && IsPageOf(page, shown, limit) && page.hasMore
    ensures IsNth(shown, limit, Entry(page.nextId, page.nextTime))
  {
    LastOfPage(page, shown, limit);
    NewerIsStrictTotal();
    TopSize(shown, Newer, limit);
    var last, top := Entry(page.nextId, page.nextTime), Top(shown, Newer, limit);
    assert top <= Better(shown, Newer, last) + {last};
    SubsetCard(top, Better(shown, Newer, last) + {last});
  }

  // A page with more to come is the head of the full merge, whatever the stores hold behind what was read, exactly
  // when no truncated list leaves room for an unread video newer than the limit-th row of what was read.
  lemma PageIsHeadIffNoRoom(st: Stores, authors: seq<Author>, cfg: Settings, req: Request, page: Page,
                            stale: seq<nat>, last: Entry)
    requires req.limit >= 1 && authors != [] && IsAnswer(st, authors, cfg, req, Some(page), stale) && page.hasMore
    requires WellKept(st, Sources(Pulled(authors, cfg.pullThreshold)))
    requires var sources := Sources(Pulled(authors, cfg.pullThreshold));
             IsNth(Shown(st, Followed(authors), req, ReadIds(st, sources, req)), req.limit, last)
    ensures var sources := Sources(Pulled(authors, cfg.pullThreshold));
            (forall st' :: WellKept(st', sources) && SameReads(st, st', sources, req) ==>
               IsFirst(page.rows, Live(st', Followed(authors), sources, req), req.limit))
              <==> !MayMiss(st, sources, last, req)
  {
    var sources, followed := Sources(Pulled(authors, cfg.pullThreshold)), Followed(authors);
    PageEndsWithNth(page, Shown(st, followed, req, ReadIds(st, sources, req)), req.limit, last);
    if MayMiss(st, sources, last, req) {
      var k :| k in sources && Truncated(st, k, req) && Room(Oldest(st, k, req), last, ReadIds(st, sources, req), req);
      var e: Entry :| e.id > 0 && e.id !in ReadIds(st, sources, req) && Newer(e, last) && Above(Oldest(st, k, req), e)
                      && IncludeTimeCursor(e, req.latestTime, req.lastId);
      var author := OwnerOf(authors, cfg, k);
      HiddenVideoExists(st, followed, sources, req, page, k, author, e);
    } else {
      forall st' | WellKept(st', sources) && SameReads(st, st', sources, req)
        ensures IsFirst(page.rows, Live(st', followed, sources, req), req.limit) {
        EnoughWasRead(st, st', followed, sources, req, page);
      }
    }
  }

  lemma OwnerOf(authors: seq<Author>, cfg: Settings, k: List) returns (author: nat)
    requires authors != [] && k in Sources(Pulled(authors, cfg.pullThreshold))
    ensures author in Followed(authors)
  {
    author := authors[0].id;
  }

  lemma {:induction false} AboveAll(ids: set<nat>) returns (bound: nat)
    ensures forall id :: id in ids ==> id <= bound
    decreases |ids|
  {
    if ids == {} {
      bound := 0;
    } else {
      var id :| id in ids;
      var rest := AboveAll(ids - {id});
      bound := if rest < id then id else rest;
      assert forall x :: x in ids ==> x == id || x in ids - {id};
    }
  }

  // At the cursor's own time the cursor lets through smaller ids only.
  predicate CursorBinds(req: Request, time: int) {
    req.latestTime > 0 && time == req.latestTime && req.lastId != 0
  }

  // At equal times the table puts larger ids first and the sorted set those with the larger decimal text: an id has to
  // be above the page's last one and yet stand below the oldest one read.
  predicate TieRoom(oldest: Entry, last: Entry, ids: set<nat>, req: Request) {
    if CursorBinds(req, oldest.score)
    then exists id :: last.id < id < req.lastId && id !in ids && LexLess(Decimal(id), Decimal(oldest.id))
    else !IsPowerOfTen(oldest.id) || exists id :: last.id < id < oldest.id && IsPowerOfTen(id) && id !in ids
  }

  predicate HasRoom(oldest: Entry, last: Entry, ids: set<nat>, req: Request) {
    oldest.score > last.score || (oldest.score == last.score && TieRoom(oldest, last, ids, req))
  }

  lemma LargePowerFits(oldest: nat, last: nat, ids: set<nat>) returns (id: nat)
    requires oldest > 0 && !IsPowerOfTen(oldest)
    ensures id > last && id !in ids && LexLess(Decimal(id), Decimal(oldest))
  {
    var bound := AboveAll(ids);
    var k := bound + last + |Decimal(oldest)|;
    LongPowerIsBelow(k, oldest);
    id := Pow10(k);
  }

  lemma TieRoomIsRoom(oldest: Entry, last: Entry, ids: set<nat>, req: Request)
    requires oldest.score == last.score && oldest.id > 0 && InRange(oldest, req.latestTime)
             && TieRoom(oldest, last, ids, req)
    ensures Room(oldest, last, ids, req)
  {
    var id: nat;
    if CursorBinds(req, oldest.score) {
      id :| last.id < id < req.lastId && id !in ids && LexLess(Decimal(id), Decimal(oldest.id));
    } else if IsPowerOfTen(oldest.id) {
      id :| last.id < id < oldest.id && IsPowerOfTen(id) && id !in ids;
      BelowAPower(id, oldest.id);
    } else {
      id := LargePowerFits(oldest.id, last.id, ids);
    }
    var e := Entry(id, last.score);
    assert Newer(e, last) && Above(oldest, e) && IncludeTimeCursor(e, req.latestTime, req.lastId);
  }

  lemma RoomIsTieRoom(oldest: Entry, last: Entry, ids: set<nat>, req: Request)
    requires oldest.score == last.score && oldest.id > 0 && Room(oldest, last, ids, req)
    ensures TieRoom(oldest, last, ids, req)
  {
    var e: Entry :| e.id > 0 && e.id !in ids && Newer(e, last) && Above(oldest, e)
                    && IncludeTimeCursor(e, req.latestTime, req.lastId);
    assert e.score == oldest.score;
    if !CursorBinds(req, oldest.score) && IsPowerOfTen(oldest.id) {
      BelowAPower(e.id, oldest.id);
    }
  }

  lemma OlderLeavesRoom(oldest: Entry, last: Entry, ids: set<nat>, req: Request)
    requires oldest.score > last.score && InRange(oldest, req.latestTime)
    ensures Room(oldest, last, ids, req)
  {
    var bound := AboveAll(ids);
    var e := Entry(bound + last.id + 1, last.score);
    assert e.id !in ids && Newer(e, last) && Above(oldest, e) && IncludeTimeCursor(e, req.latestTime, req.lastId);
  }

  // So room is decided by what was read: the oldest entry of the list against the page's last row.
  lemma RoomByTime(st: Stores, sources: set<List>, k: List, last: Entry, req: Request)
    requires req.limit >= 1 && WellKept(st, sources) && k in sources && Truncated(st, k, req)
    ensures Room(Oldest(st, k, req), last, ReadIds(st, sources, req), req) <==>
            HasRoom(Oldest(st, k, req), last, ReadIds(st, sources, req), req)
  {
    var oldest, ids := Oldest(st, k, req), ReadIds(st, sources, req);
    assert SourceKept(st, k);
    ReadFacts(st, k, req);
    assert oldest in Read(st, k, req);
    if oldest.score > last.score {
      OlderLeavesRoom(oldest, last, ids, req);
    } else if oldest.score == last.score {
      if TieRoom(oldest, last, ids, req) {
        TieRoomIsRoom(oldest, last, ids, req);
      }
      if Room(oldest, last, ids, req) {
        RoomIsTieRoom(oldest, last, ids, req);
      }
    }
  }

  // The reader's rule of thumb: enough shown rows strictly newer than the oldest entry of every truncated list.
  lemma EnoughNewerRows(st: Stores, authors: seq<Author>, cfg: Settings, req: Request, page: Page, stale: seq<nat>)
    requires req.limit >= 1 && authors != [] && IsAnswer(st, authors, cfg, req, Some(page), stale) && page.hasMore
    requires WellKept(st, Sources(Pulled(authors, cfg.pullThreshold)))
    requires forall k :: k in Sources(Pulled(authors, cfg.pullThreshold)) && Truncated(st, k, req) ==>
               |NewerThan(Shown(st, Followed(authors), req, IdsOf(Read(st, k, req))),
                          Oldest(st, k, req).score)| >= req.limit
    ensures IsFirst(page.rows, Live(st, Followed(authors), Sources(Pulled(authors, cfg.pullThreshold)), req), req.limit)
  {
    var sources, followed := Sources(Pulled(authors, cfg.pullThreshold)), Followed(authors);
    var shown, last := Shown(st, followed, req, ReadIds(st, sources, req)), Entry(page.nextId, page.nextTime);
    forall k | k in sources && Truncated(st, k, req)
      ensures !Room(Oldest(st, k, req), last, ReadIds(st, sources, req), req)
    {
      var mine := Shown(st, followed, req, IdsOf(Read(st, k, req)));
      assert IdsOf(Read(st, k, req)) <= ReadIds(st, sources, req);
      assert mine <= shown;
      LastIsNewer(page, shown, NewerThan(mine, Oldest(st, k, req).score), req.limit, Oldest(st, k, req).score);
      RoomByTime(st, sources, k, last, req);
    }
    EnoughWasRead(st, st, followed, sources, req, page);
  }

  function IdsOf(entries: seq<Entry>): set<nat> {
    set e | e in entries :: e.id
  }

  function NewerThan(rows: set<Entry>, time: int): set<Entry> {
    set x | x in rows && x.score > time
  }

  lemma LastIsNewer(page: Page, shown: set<Entry>, newer: set<Entry>, limit: nat, time: int)
    requires limit >= 1 && IsPageOf(page, shown, limit) && page.hasMore
    requires newer <= shown && |newer| >= limit && forall x :: x in newer ==> x.score > time
    ensures page.nextTime > time
  {
    LastOfPage(page, shown, limit);
    var last := Entry(page.nextId, page.nextTime);
    if last.score <= time {
      assert newer <= Better(shown, Newer, last);
      SubsetCard(newer, Better(shown, Newer, last));
    }
  }

  // ---------------------------------------------------------------- a page that misses a newer video

  // Author 7 is pulled. Its four newest outbox entries were taken down, its fifth is live but lies behind the read.
  const OUTBOX: seq<Entry> := [Entry(15, 105), Entry(14, 104), Entry(13, 103), Entry(12, 102), Entry(11, 101)]
  const STORES: Stores := Stores(
    [Entry(2, 20), Entry(1, 10)],
    map[7 := OUTBOX],
    map[1 := Video(8, 10, true), 2 := Video(8, 20, true), 11 := Video(7, 101, true)])
  const AUTHORS: seq<Author> := [Author(8, 3), Author(7, 2000000)]
  const SETTINGS: Settings := Settings(1000000, 20, 1000)
  const FIRST_PAGE: Request := Request(1, 0, 0)

  lemma OnlyAuthor7IsPulled()
    ensures Pulled(AUTHORS, SETTINGS.pullThreshold) == [7] && Followed(AUTHORS) == {7, 8}
  {
    assert AUTHORS[..1] == [Author(8, 3)] && AUTHORS[..1][..0] == [];
    assert Pulled(AUTHORS[..1][..0], SETTINGS.pullThreshold) == [];
    assert AUTHORS[0].id == 8 && AUTHORS[1].id == 7;
  }

  lemma InboxRead()
    ensures Read(STORES, InboxList, FIRST_PAGE) == STORES.inbox
  {
    UpToAll(STORES.inbox, 0);
  }

  lemma OutboxRead()
    ensures Read(STORES, OutboxOf(7), FIRST_PAGE) == OUTBOX[..4]
  {
    assert Source(STORES, OutboxOf(7)) == OUTBOX;
    UpToAll(OUTBOX, 0);
  }

  lemma InboxIsRead(ids: set<nat>, sources: set<List>)
    requires InboxList in sources && ids == ReadIds(STORES, sources, FIRST_PAGE)
    ensures 1 in ids && 2 in ids
  {
    InboxRead();
    var read := Read(STORES, InboxList, FIRST_PAGE);
    assert read[0] == Entry(2, 20) && read[0] in read;
    assert read[1] == Entry(1, 10) && read[1] in read;
  }

  lemma NotAmongTheFirst(e: Entry)
    requires e in STORES.inbox || e in OUTBOX[..4]
    ensures e.id != 11
  {
    if e in OUTBOX[..4] {
      var i :| 0 <= i < 4 && OUTBOX[..4][i] == e;
      assert OUTBOX[i].id == 15 - i;
    }
  }

  lemma EveryReadIsOfTheFirst(k: List, e: Entry)
    requires (k == InboxList || k == OutboxOf(7)) && e in Read(STORES, k, FIRST_PAGE)
    ensures e.id != 11
  {
    if k == InboxList {
      InboxRead();
    } else {
      OutboxRead();
    }
    NotAmongTheFirst(e);
  }

  lemma FifthIsNotRead(ids: set<nat>, sources: set<List>)
    requires sources == {InboxList, OutboxOf(7)} && ids == ReadIds(STORES, sources, FIRST_PAGE)
    ensures 11 !in ids
  {
    forall k, e | k in sources && e in Read(STORES, k, FIRST_PAGE) ensures e.id != 11 {
      EveryReadIsOfTheFirst(k, e);
    }
  }

  lemma TheShownRows(ids: set<nat>)
    requires 1 in ids && 2 in ids && 11 !in ids
    ensures Shown(STORES, {7, 8}, FIRST_PAGE, ids) == SetOf([Entry(2, 20), Entry(1, 10)])
  {
    var shown := Shown(STORES, {7, 8}, FIRST_PAGE, ids);
    assert IsShown(STORES, {7, 8}, FIRST_PAGE, 1) && IsShown(STORES, {7, 8}, FIRST_PAGE, 2);
    assert VideoRow(STORES, 1) in shown && VideoRow(STORES, 2) in shown;
    var rows := [Entry(2, 20), Entry(1, 10)];
    assert rows[0] in rows && rows[1] in rows;
  }

  lemma FifthIsLive(sources: set<List>)
    requires OutboxOf(7) in sources
    ensures Entry(11, 101) in Live(STORES, {7, 8}, sources, FIRST_PAGE)
  {
    assert OUTBOX[4] in Source(STORES, OutboxOf(7));
    assert 11 in HeldIds(STORES, sources);
    assert IsShown(STORES, {7, 8}, FIRST_PAGE, 11) && VideoRow(STORES, 11) == Entry(11, 101);
  }

  const MISSING_PAGE: Page := Page([Entry(2, 20)], true, 20, 2)

  lemma ThePage()
    ensures IsPageOf(MISSING_PAGE, SetOf([Entry(2, 20), Entry(1, 10)]), 1)
  {
    var rows := [Entry(2, 20), Entry(1, 10)];
    NewerIsStrictTotal();
    PrefixIsTop(rows, Newer, 1);
    assert rows[..1] == MISSING_PAGE.rows;
  }

  lemma StoresAreKept(sources: set<List>)
    requires sources == {InboxList, OutboxOf(7)}
    ensures WellKept(STORES, sources)
  {
    assert SourceKept(STORES, InboxList);
    assert SourceKept(STORES, OutboxOf(7));
  }

  predicate WasRead(id: nat) {
    id == 1 || id == 2 || 12 <= id <= 15
  }

  lemma ReadIsListed(k: List, e: Entry)
    requires (k == InboxList || k == OutboxOf(7)) && e in Read(STORES, k, FIRST_PAGE)
    ensures WasRead(e.id)
  {
    if k == InboxList {
      InboxRead();
    } else {
      OutboxRead();
      assert e in OUTBOX;
      EveryReadIsOfTheFirst(k, e);
    }
  }

  lemma FirstFourAreRead(ids: set<nat>, sources: set<List>)
    requires OutboxOf(7) in sources && ids == ReadIds(STORES, sources, FIRST_PAGE)
    ensures 12 in ids && 13 in ids && 14 in ids && 15 in ids
  {
    OutboxRead();
    var read := Read(STORES, OutboxOf(7), FIRST_PAGE);
    assert read[0] in read && read[1] in read && read[2] in read && read[3] in read;
    assert read[0].id == 15 && read[1].id == 14 && read[2].id == 13 && read[3].id == 12;
  }

  lemma NothingElseIsRead(ids: set<nat>, sources: set<List>)
    requires sources == {InboxList, OutboxOf(7)} && ids == ReadIds(STORES, sources, FIRST_PAGE)
    ensures forall id :: id in ids ==> WasRead(id)
  {
    forall k, e | k in sources && e in Read(STORES, k, FIRST_PAGE) ensures WasRead(e.id) {
      ReadIsListed(k, e);
    }
  }

  // The reader's clean-up gets the four that were taken down.
  const GONE: seq<nat> := [12, 13, 14, 15]

  lemma FourAreStale(ids: set<nat>)
    requires 12 in ids && 13 in ids && 14 in ids && 15 in ids
    requires forall id :: id in ids ==> WasRead(id)
    ensures forall id :: id in GONE <==> id in ids && IsStale(STORES, {7, 8}, FIRST_PAGE, id)
  {
    forall id ensures id in GONE <==> 12 <= id <= 15 {
      assert GONE[0] == 12 && GONE[1] == 13 && GONE[2] == 14 && GONE[3] == 15;
    }
    assert !IsStale(STORES, {7, 8}, FIRST_PAGE, 1) && !IsStale(STORES, {7, 8}, FIRST_PAGE, 2);
  }

  lemma PageOfReads(ids: set<nat>)
    requires 1 in ids && 2 in ids && 11 !in ids
    ensures IsPageOf(MISSING_PAGE, Shown(STORES, {7, 8}, FIRST_PAGE, ids), 1)
    ensures |Shown(STORES, {7, 8}, FIRST_PAGE, ids)| > 1
  {
    TheShownRows(ids);
    ThePage();
  }

  lemma ItIsTheAnswer()
    ensures IsAnswer(STORES, AUTHORS, SETTINGS, FIRST_PAGE, Some(MISSING_PAGE), GONE)
  {
    OnlyAuthor7IsPulled();
    var sources := Sources([7]);
    assert sources == {InboxList, OutboxOf(7)};
    var ids := ReadIds(STORES, sources, FIRST_PAGE);
    InboxIsRead(ids, sources);
    FirstFourAreRead(ids, sources);
    NothingElseIsRead(ids, sources);
    FourAreStale(ids);
    PageOfReads(ids);
  }

  lemma FifthIsMissed()
    ensures var sources := Sources(Pulled(AUTHORS, SETTINGS.pullThreshold));
            && WellKept(STORES, sources)
            && !IsFirst(MISSING_PAGE.rows, Live(STORES, Followed(AUTHORS), sources, FIRST_PAGE), 1)
  {
    OnlyAuthor7IsPulled();
    var sources := Sources([7]);
    assert sources == {InboxList, OutboxOf(7)};
    StoresAreKept(sources);
    var ids := ReadIds(STORES, sources, FIRST_PAGE);
    InboxIsRead(ids, sources);
    FifthIsNotRead(ids, sources);
    PageOfReads(ids);
    FifthIsLive(sources);
    MissedRow(MISSING_PAGE, Shown(STORES, {7, 8}, FIRST_PAGE, ids), Live(STORES, {7, 8}, sources, FIRST_PAGE), 1,
              Entry(11, 101));
  }

  // The code answers from the inbox with a page that misses a newer live video.
  lemma NewerVideoCanBeMissed()
    ensures IsAnswer(STORES, AUTHORS, SETTINGS, FIRST_PAGE, Some(MISSING_PAGE), GONE)
    ensures var sources := Sources(Pulled(AUTHORS, SETTINGS.pullThreshold));
            && WellKept(STORES, sources)
            && !IsFirst(MISSING_PAGE.rows, Live(STORES, Followed(AUTHORS), sources, FIRST_PAGE), 1)
  {
    ItIsTheAnswer();
    FifthIsMissed();
  }
}
