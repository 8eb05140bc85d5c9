/**
 Both sides of the following feed together: what the push side keeps is what the read side needs. This is where the
 reader's test whether the inbox is full belongs (feed/service.go, before a page without a next one is answered).
*/
module FollowingFeed {
  import opened Wrappers
  import opened TopN
  import opened Inbox
  import opened FeedPaging
  import opened FollowingPage
  import opened FollowingMerge
  import F = FanoutProtocol
  import S = FanoutSafety

  // A reader's authors are pushed to him, and then he follows them on the push side, or pulled, and then their outboxes
  // hold their videos.
  ghost predicate Reachable(s: F.State, u: nat, st: Stores, pulled: seq<nat>, id: nat)
    requires id in st.videos
  {
    var v := st.videos[id];
    if v.author in pulled then VideoRow(st, id) in Source(st, OutboxOf(v.author))
    else id in s.public && id in s.videos && s.videos[id] == F.Video(v.author, v.created) && (u, v.author) in s.follows
  }

  // What user u reads when the push side is in state s.
  ghost predicate Mirrors(c: F.Config, s: F.State, u: nat, st: Stores, authors: seq<Author>, cfg: Settings) {
    && Descending(st.inbox, Above) && SetOf(st.inbox) == F.Box(s, u) && cfg.inboxMaxSize == c.maxSize
    && (forall id :: id in st.videos && id in s.videos ==> st.videos[id].created == s.videos[id].created)
    && (forall id :: id in st.videos && st.videos[id].author in Followed(authors) ==>
          Reachable(s, u, st, Pulled(authors, cfg.pullThreshold), id))
    && (forall a :: a in Pulled(authors, cfg.pullThreshold) ==> SourceKept(st, OutboxOf(a)))
  }

  // Everything there is to show.
  function Feed(st: Stores, authors: seq<Author>, req: Request): set<Entry> {
    Shown(st, Followed(authors), req, st.videos.Keys)
  }

  // Nothing is in flight for u, his flag is up and he has lost nothing.
  ghost predicate Settled(c: F.Config, events: seq<F.Event>, u: nat)
    requires S.IsRun(c, S.EMPTY, events)
  {
    var s := S.Reached(c, S.EMPTY, events);
    S.Quiet(s) && u > 0 && u in s.active && forall id: nat :: (u, id) !in S.Lost(c, S.EMPTY, {}, events)
  }

  lemma StoresAreWellKept(c: F.Config, s: F.State, u: nat, st: Stores, authors: seq<Author>, cfg: Settings)
    requires F.WellFormed(s) && Mirrors(c, s, u, st, authors, cfg)
    ensures WellKept(st, Sources(Pulled(authors, cfg.pullThreshold)))
  {
    forall e | e in st.inbox ensures e.id > 0 && (e.id in st.videos ==> e.score == st.videos[e.id].created) {
      assert e in F.Box(s, u);
      assert F.Scored(s.videos, s.inbox[u]);
    }
    assert SourceKept(st, InboxList);
  }

  lemma InboxLength(c: F.Config, s: F.State, u: nat, st: Stores, authors: seq<Author>, cfg: Settings)
    requires Mirrors(c, s, u, st, authors, cfg)
    ensures |st.inbox| == |F.Box(s, u)|
  {
    AboveIsStrictTotal();
    PrefixIsTop(st.inbox, Above, 0);
  }

  lemma ShownIsHeld(c: F.Config, events: seq<F.Event>, u: nat, st: Stores, authors: seq<Author>, cfg: Settings, id: nat)
    requires F.ValidConfig(c) && S.IsRun(c, S.EMPTY, events) && Settled(c, events, u)
    requires Mirrors(c, S.Reached(c, S.EMPTY, events), u, st, authors, cfg) && |st.inbox| < cfg.inboxMaxSize
    requires id in st.videos && st.videos[id].author in Followed(authors)
    ensures id in HeldIds(st, Sources(Pulled(authors, cfg.pullThreshold)))
  {
    var s, pulled := S.Reached(c, S.EMPTY, events), Pulled(authors, cfg.pullThreshold);
    assert Reachable(s, u, st, pulled, id);
    if st.videos[id].author in pulled {
      assert OutboxOf(st.videos[id].author) in Sources(pulled);
      assert VideoRow(st, id).id == id;
    } else {
      S.QuietInboxIsComplete(c, events, u, id);
      InboxLength(c, s, u, st, authors, cfg);
      assert F.EntryOf(s, id) in st.inbox;
      assert InboxList in Sources(pulled) && F.EntryOf(s, id) in Source(st, InboxList);
    }
  }

  // An inbox that is not full, and the pulled outboxes, hold the reader's whole feed.
  lemma ListsHoldTheFeed(c: F.Config, events: seq<F.Event>, u: nat, st: Stores, authors: seq<Author>, cfg: Settings,
                         req: Request)
    requires F.ValidConfig(c) && S.IsRun(c, S.EMPTY, events) && Settled(c, events, u)
    requires Mirrors(c, S.Reached(c, S.EMPTY, events), u, st, authors, cfg) && |st.inbox| < cfg.inboxMaxSize
    ensures Live(st, Followed(authors), Sources(Pulled(authors, cfg.pullThreshold)), req) == Feed(st, authors, req)
  {
    forall id | id in st.videos && st.videos[id].author in Followed(authors)
      ensures id in HeldIds(st, Sources(Pulled(authors, cfg.pullThreshold))) {
      ShownIsHeld(c, events, u, st, authors, cfg, id);
    }
  }

  lemma LastAnswerHasAllRead(st: Stores, authors: seq<Author>, cfg: Settings, req: Request, page: Page, stale: seq<nat>)
    requires req.limit >= 1 && IsAnswer(st, authors, cfg, req, Some(page), stale) && !page.hasMore
    ensures |st.inbox| < cfg.inboxMaxSize
  {}

  // In every run: a page without a next one, answered from the lists to a settled reader, shows his whole feed past the
  // cursor: the test for a full inbox and the one for full reads leave nothing out.
  lemma LastPageEndsTheFeed(c: F.Config, events: seq<F.Event>, u: nat, st: Stores, authors: seq<Author>, cfg: Settings,
                            req: Request, page: Page, stale: seq<nat>)
    requires F.ValidConfig(c) && S.IsRun(c, S.EMPTY, events) && Settled(c, events, u)
    requires Mirrors(c, S.Reached(c, S.EMPTY, events), u, st, authors, cfg)
    requires req.limit >= 1 && IsAnswer(st, authors, cfg, req, Some(page), stale) && !page.hasMore
    ensures SetOf(page.rows) == Feed(st, authors, req)
  {
    S.RunKeepsInv(c, S.EMPTY, {}, events);
    LastAnswerHasAllRead(st, authors, cfg, req, page, stale);
    StoresAreWellKept(c, S.Reached(c, S.EMPTY, events), u, st, authors, cfg);
    NoMoreMeansNothingLeft(st, authors, cfg, req, page, stale);
    ListsHoldTheFeed(c, events, u, st, authors, cfg, req);
  }

  // In every run: a page with a next one is the head of a settled reader's whole feed, if his inbox is not full and no
  // truncated list leaves room for a newer video.
  lemma PageHeadsTheFeed(c: F.Config, events: seq<F.Event>, u: nat, st: Stores, authors: seq<Author>, cfg: Settings,
                         req: Request, page: Page, stale: seq<nat>)
    requires F.ValidConfig(c) && S.IsRun(c, S.EMPTY, events) && Settled(c, events, u)
    requires Mirrors(c, S.Reached(c, S.EMPTY, events), u, st, authors, cfg) && |st.inbox| < cfg.inboxMaxSize
    requires req.limit >= 1 && IsAnswer(st, authors, cfg, req, Some(page), stale) && page.hasMore
    requires !MayMiss(st, Sources(Pulled(authors, cfg.pullThreshold)), Entry(page.nextId, page.nextTime), req)
    ensures IsFirst(page.rows, Feed(st, authors, req), req.limit)
  {
    S.RunKeepsInv(c, S.EMPTY, {}, events);
    StoresAreWellKept(c, S.Reached(c, S.EMPTY, events), u, st, authors, cfg);
    EnoughWasRead(st, st, Followed(authors), Sources(Pulled(authors, cfg.pullThreshold)), req, page);
    ListsHoldTheFeed(c, events, u, st, authors, cfg, req);
  }
}
