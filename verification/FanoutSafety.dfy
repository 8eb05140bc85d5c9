/**
 In every run of the following-feed protocol, a public video of a followed author is in the follower's inbox, cut off
 behind maxSize entries at least as new, or still owed by work in flight, unless the follower's flag is down or the video
 was lost when a rebuild or a reset failed or a reader removed members from the inbox.
*/
module FanoutSafety {
  import opened TopN
  import opened Inbox
  import opened FanoutWorker
  import opened FanoutProtocol

  // ---------------------------------------------------------------- what trimming keeps

  ghost predicate ByScoreFirst(above: (Entry, Entry) -> bool) {
    StrictTotal(above) && forall x, y :: above(x, y) ==> x.score >= y.score
  }

  lemma RedisOrder()
    ensures ByScoreFirst(Above)
  {
    AboveIsStrictTotal();
  }

  lemma TableOrder()
    ensures ByScoreFirst(Newer)
  {}

  // What a trim drops, it drops behind maxSize entries that are at least as new.
  lemma KeptOrCut(w: set<Entry>, above: (Entry, Entry) -> bool, n: nat, e: Entry)
    requires ByScoreFirst(above) && e in w
    ensures Stored(Top(w, above, n), e, n)
  {
    var kept := Top(w, above, n);
    if e !in kept {
      CutBehindKept(w, above, n, e);
      TopSize(w, above, n);
      SubsetCard(Better(kept, above, e), kept);
    }
  }

  lemma CutStaysCut(w: set<Entry>, newer: set<Entry>, score: int, n: nat)
    requires newer <= w && CutOff(newer, score, n)
    ensures CutOff(KeepNewest(w, n), score, n)
  {
    RedisOrder();
    TopSize(w, Above, n);
    SubsetCard(newer, w);
    forall x | x in KeepNewest(w, n) ensures x.score >= score {
      if x.score < score {
        assert newer <= Better(w, Above, x);
        SubsetCard(newer, Better(w, Above, x));
      }
    }
  }

  lemma StoredStays(w: set<Entry>, z: set<Entry>, e: Entry, n: nat)
    requires z <= w && Stored(z, e, n)
    ensures Stored(KeepNewest(w, n), e, n)
  {
    if e in z {
      RedisOrder();
      KeptOrCut(w, Above, n, e);
    } else {
      CutStaysCut(w, z, e.score, n);
    }
  }

  // ---------------------------------------------------------------- pushes and fills

  lemma ScoredIsOneScore(videos: map<nat, Video>, z: set<Entry>)
    requires Scored(videos, z)
    ensures OneScore(z)
  {}

  lemma PushStores(c: Config, s: State, u: nat, e: Entry)
    requires WellFormed(s) && e.id in s.videos && e == EntryOf(s, e.id)
    ensures u > 0 ==> PushInto(c, s, u, e) == s.inbox[u := KeepNewest(Box(s, u) + {e}, c.maxSize)]
  {
    assert Scored(s.videos, Box(s, u) + {e});
    ScoredIsOneScore(s.videos, Box(s, u) + {e});
    ZAddIsUnion(Box(s, u), e);
  }

  lemma FillStores(c: Config, s: State, u: nat, rows: seq<Entry>)
    requires WellFormed(s) && Scored(s.videos, SetOf(rows)) && rows != []
    ensures FillInto(c, s, u, rows) == s.inbox[u := KeepNewest(Box(s, u) + SetOf(rows), c.maxSize)]
  {
    assert Scored(s.videos, Box(s, u) + SetOf(rows));
    ScoredIsOneScore(s.videos, Box(s, u) + SetOf(rows));
    ZAddAllIsUnion(Box(s, u), rows);
  }

  // ---------------------------------------------------------------- a task hands on what it owes

  lemma StartHandsOn(c: Config, s: State, e: Event, u: nat, id: nat)
    requires WellFormed(s) && Enabled(c, s, e) && e.Start? && u > 0 && id in s.videos && Follows(s, u, id)
    requires Owes(c, s.tasks[e.task], u, id)
    ensures FanoutInFlight(c, Apply(c, s, e), u, id)
  {
    assert (u, s.videos[id].author) in s.follows;
    assert u in Followers(s, s.videos[id].author);
    assert Owes(c, Apply(c, s, e).tasks[e.next], u, id);
  }

  lemma ListHandsOn(c: Config, s: State, e: Event, u: nat, id: nat)
    requires WellFormed(s) && Enabled(c, s, e) && e.List? && ValidConfig(c) && id in s.videos && Follows(s, u, id)
    requires Owes(c, s.tasks[e.task], u, id)
    ensures FanoutInFlight(c, Apply(c, s, e), u, id)
  {
    var t := s.tasks[e.task];
    assert u in Followers(s, s.videos[id].author) by {
      assert (u, s.videos[id].author) in s.follows;
    }
    var t' := AfterList(c, s, t, e.ids);
    if u in e.ids {
      assert e.ids[0..] == e.ids;
    } else {
      UnlistedStaysAhead(Followers(s, s.videos[id].author), t.cursor, c.batchSize, e.ids, u);
    }
    assert Owes(c, t', u, id);
    assert Apply(c, s, e).tasks[e.task] == t';
  }

  lemma CheckHandsOn(c: Config, s: State, e: Event, u: nat, id: nat)
    requires WellFormed(s) && Enabled(c, s, e) && e.Check? && id in s.videos && u in s.active
    requires Owes(c, s.tasks[e.task], u, id)
    ensures FanoutInFlight(c, Apply(c, s, e), u, id)
  {
    var t := s.tasks[e.task];
    assert RunningOk(t);
    var t' := AfterCheck(s, t);
    assert t.ids[t.checked..] == [t.ids[t.checked]] + t.ids[t'.checked..];
    assert t.pushed <= |t.targets|;
    if t'.targets != t.targets {
      assert t'.targets[t.pushed..] == t.targets[t.pushed..] + [t.ids[t.checked]];
    }
    assert Owes(c, t', u, id);
    assert Apply(c, s, e).tasks[e.task] == t';
  }

  lemma PushHandsOn(c: Config, s: State, e: Event, u: nat, id: nat)
    requires WellFormed(s) && Enabled(c, s, e) && e.PushOne? && id in s.videos && u > 0
    requires Owes(c, s.tasks[e.task], u, id)
    ensures FanoutInFlight(c, Apply(c, s, e), u, id) || Stored(Box(Apply(c, s, e), u), EntryOf(s, id), c.maxSize)
  {
    var t := s.tasks[e.task];
    assert RunningOk(t);
    var w := t.targets[t.pushed];
    assert t.targets[t.pushed..] == [w] + t.targets[t.pushed + 1..];
    if u == w {
      var item := EntryOf(s, id);
      PushStores(c, s, w, item);
      RedisOrder();
      KeptOrCut(Box(s, u) + {item}, Above, c.maxSize, item);
    } else {
      assert Owes(c, Apply(c, s, e).tasks[e.task], u, id);
    }
  }

  lemma FinishHandsOn(c: Config, s: State, e: Event, u: nat, id: nat)
    requires WellFormed(s) && Enabled(c, s, e) && e.Finish? && id in s.videos
    requires Owes(c, s.tasks[e.task], u, id)
    ensures FanoutInFlight(c, Apply(c, s, e), u, id)
  {
    var t := s.tasks[e.task];
    assert RunningOk(t);
    assert t.ids[t.checked..] == [] && t.targets[t.pushed..] == [];
    assert Owes(c, Apply(c, s, e).tasks[e.next], u, id);
  }

  lemma CrashHandsOn(c: Config, s: State, e: Event, u: nat, id: nat)
    requires WellFormed(s) && Enabled(c, s, e) && e.Crash? && id in s.videos
    requires Owes(c, s.tasks[e.task], u, id)
    ensures FanoutInFlight(c, Apply(c, s, e), u, id)
  {
    var t := s.tasks[e.task];
    assert RunningOk(t);
    assert u in t.ids[t.checked..] ==> u in t.ids;
    assert u in t.targets[t.pushed..] ==> u in t.targets;
    if Full(c, t) {
      assert t.ids[|t.ids| - 1] in t.ids;
    }
    assert Owes(c, Apply(c, s, e).tasks[e.task], u, id);
  }

  predicate IsTaskEvent(e: Event) {
    e.Start? || e.List? || e.Check? || e.PushOne? || e.Finish? || e.Crash?
  }

  lemma OtherTasksKeep(c: Config, s: State, e: Event, t: nat)
    requires Enabled(c, s, e) && IsTaskEvent(e) && t in s.tasks && t != e.task
    ensures t in Apply(c, s, e).tasks && Apply(c, s, e).tasks[t] == s.tasks[t]
  {}

  lemma PushKeepsStored(c: Config, s: State, e: Event, u: nat, x: Entry)
    requires WellFormed(s) && Enabled(c, s, e) && e.PushOne? && Stored(Box(s, u), x, c.maxSize)
    ensures Stored(Box(Apply(c, s, e), u), x, c.maxSize)
  {
    var t := s.tasks[e.task];
    var w := t.targets[t.pushed];
    if u == w && w > 0 {
      var item := EntryOf(s, t.video);
      PushStores(c, s, w, item);
      StoredStays(Box(s, u) + {item}, Box(s, u), x, c.maxSize);
    }
  }

  lemma TaskHandsOn(c: Config, s: State, e: Event, u: nat, id: nat)
    requires WellFormed(s) && Enabled(c, s, e) && IsTaskEvent(e) && ValidConfig(c) && u > 0
    requires id in s.videos && Follows(s, u, id) && Owes(c, s.tasks[e.task], u, id)
    ensures Covered(c, Apply(c, s, e), u, id)
  {
    if u in s.active {
      match e {
        case Start(_, _, _) => StartHandsOn(c, s, e, u, id);
        case List(_, _) => ListHandsOn(c, s, e, u, id);
        case Check(_) => CheckHandsOn(c, s, e, u, id);
        case PushOne(_) => PushHandsOn(c, s, e, u, id);
        case Finish(_, _, _) => FinishHandsOn(c, s, e, u, id);
        case Crash(_) => CrashHandsOn(c, s, e, u, id);
      }
    }
  }

  lemma TaskEventCovers(c: Config, s: State, e: Event, u: nat, id: nat)
    requires WellFormed(s) && Enabled(c, s, e) && IsTaskEvent(e) && ValidConfig(c) && u > 0
    requires id in s.videos && Follows(s, u, id) && Covered(c, s, u, id)
    ensures Covered(c, Apply(c, s, e), u, id)
  {
    var s' := Apply(c, s, e);
    if FanoutInFlight(c, s, u, id) {
      var t :| t in s.tasks && Owes(c, s.tasks[t], u, id);
      if t == e.task {
        TaskHandsOn(c, s, e, u, id);
      } else {
        OtherTasksKeep(c, s, e, t);
        assert Owes(c, s'.tasks[t], u, id);
      }
    } else if Stored(Box(s, u), EntryOf(s, id), c.maxSize) {
      if e.PushOne? {
        PushKeepsStored(c, s, e, u, EntryOf(s, id));
      }
    }
  }

  // ---------------------------------------------------------------- flags and rebuilds

  // The flag is up before the rows are read, so the rows contain every video whose fan-out may have skipped the user.
  lemma QueryCovers(c: Config, s: State, u: nat, id: nat, rows: seq<Entry>)
    requires WellFormed(s) && id in s.public && Follows(s, u, id) && IsQuery(c, s, u, rows)
    ensures Stored(SetOf(rows), EntryOf(s, id), c.maxSize)
  {
    assert EntryOf(s, id) in Wanted(s, u);
    TableOrder();
    KeptOrCut(Wanted(s, u), Newer, c.maxSize, EntryOf(s, id));
  }

  lemma FillKeepsStored(c: Config, s: State, e: Event, u: nat, x: Entry)
    requires WellFormed(s) && Enabled(c, s, e) && e.FillInbox? && Stored(Box(s, u), x, c.maxSize)
    ensures Stored(Box(Apply(c, s, e), u), x, c.maxSize)
  {
    var r := s.rebuilds[e.rebuild];
    if u == r.user && r.rows != [] {
      FillStores(c, s, u, r.rows);
      StoredStays(Box(s, u) + SetOf(r.rows), Box(s, u), x, c.maxSize);
    }
  }

  lemma FillStoresRows(c: Config, s: State, e: Event, x: Entry)
    requires WellFormed(s) && Enabled(c, s, e) && e.FillInbox? && c.maxSize >= 1
    requires Stored(SetOf(s.rebuilds[e.rebuild].rows), x, c.maxSize)
    ensures Stored(Box(Apply(c, s, e), s.rebuilds[e.rebuild].user), x, c.maxSize)
  {
    var r := s.rebuilds[e.rebuild];
    var z := SetOf(r.rows);
    assert z != {};
    var y :| y in z;
    FillStores(c, s, r.user, r.rows);
    StoredStays(Box(s, r.user) + z, z, x, c.maxSize);
  }

  lemma RebuildHandsOn(c: Config, s: State, e: Event, r: nat, u: nat, id: nat)
    requires WellFormed(s) && Enabled(c, s, e) && (e.Query? || e.FillInbox?) && c.maxSize >= 1
    requires id in s.public && Follows(s, u, id)
    requires r in s.rebuilds && RebuildOwes(c, s.rebuilds[r], u, EntryOf(s, id))
    ensures Covered(c, Apply(c, s, e), u, id)
  {
    var s' := Apply(c, s, e);
    if r != e.rebuild {
      assert RebuildOwes(c, s'.rebuilds[r], u, EntryOf(s', id));
    } else if e.Query? {
      QueryCovers(c, s, u, id, e.rows);
      assert RebuildOwes(c, s'.rebuilds[r], u, EntryOf(s', id));
    } else {
      FillStoresRows(c, s, e, EntryOf(s, id));
    }
  }

  lemma OwedRowsStayOwed(c: Config, s: State, e: Event, u: nat, id: nat)
    requires WellFormed(s) && Enabled(c, s, e) && c.maxSize >= 1
    requires e.ClearFlag? || e.ExpireFlag? || e.RaiseFlag? || e.Query? || e.FillInbox?
    requires id in s.public && Follows(s, u, id) && RebuildInFlight(c, s, u, EntryOf(s, id))
    ensures Covered(c, Apply(c, s, e), u, id)
  {
    var r :| r in s.rebuilds && RebuildOwes(c, s.rebuilds[r], u, EntryOf(s, id));
    if e.Query? || e.FillInbox? {
      RebuildHandsOn(c, s, e, r, u, id);
    } else {
      var s' := Apply(c, s, e);
      assert RebuildOwes(c, s'.rebuilds[r], u, EntryOf(s', id));
    }
  }

  lemma FlagEventCovers(c: Config, s: State, e: Event, u: nat, id: nat)
    requires WellFormed(s) && Enabled(c, s, e) && c.maxSize >= 1
    requires e.ClearFlag? || e.ExpireFlag? || e.RaiseFlag? || e.Query? || e.FillInbox?
    requires id in s.public && Follows(s, u, id) && Covered(c, s, u, id)
    ensures Covered(c, Apply(c, s, e), u, id)
  {
    var s' := Apply(c, s, e);
    if RebuildInFlight(c, s, u, EntryOf(s, id)) {
      OwedRowsStayOwed(c, s, e, u, id);
    } else if ResetInFlight(s, u) {
      var r :| r in s.resets && s.resets[r] == u;
      if !e.ClearFlag? || e.reset != r {
        assert r in s'.resets && s'.resets[r] == u;
      }
    } else if FanoutInFlight(c, s, u, id) {
      assert FanoutInFlight(c, s', u, id);
    } else if u !in s.active {
      if e.RaiseFlag? && e.user == u {
        assert RebuildOwes(c, s'.rebuilds[e.rebuild], u, EntryOf(s', id));
      }
    } else if e.FillInbox? {
      FillKeepsStored(c, s, e, u, EntryOf(s, id));
    }
  }

  lemma MarkedOwes(c: Config, s: State, r: nat, u: nat, id: nat)
    requires r in s.rebuilds && s.rebuilds[r] == Marked(u) && id in s.videos
    ensures Covered(c, s, u, id)
  {
    assert RebuildOwes(c, s.rebuilds[r], u, EntryOf(s, id));
  }

  lemma UncoveredStaysOthers(c: Config, s: State, e: Event, u: nat)
    requires Enabled(c, s, e) && IsUserLoss(e) && u != UserOf(c, s, e)
    ensures Box(Apply(c, s, e), u) == Box(s, u)
    ensures forall r :: r in s.resets && s.resets[r] == u ==> r in Apply(c, s, e).resets
    ensures forall r :: r in s.rebuilds && s.rebuilds[r].user == u ==> r in Apply(c, s, e).rebuilds
  {}

  // A failed rebuild, a failed reset and a removal cost no other user anything.
  lemma OthersKeepCover(c: Config, s: State, e: Event, u: nat, id: nat)
    requires Enabled(c, s, e) && IsUserLoss(e) && u != UserOf(c, s, e) && id in s.videos && Covered(c, s, u, id)
    ensures Covered(c, Apply(c, s, e), u, id)
  {
    var s' := Apply(c, s, e);
    UncoveredStaysOthers(c, s, e, u);
    if FanoutInFlight(c, s, u, id) {
      assert FanoutInFlight(c, s', u, id);
    } else if ResetInFlight(s, u) {
      var r :| r in s.resets && s.resets[r] == u;
      assert r in s'.resets && s'.resets[r] == u;
    } else if RebuildInFlight(c, s, u, EntryOf(s, id)) {
      var r :| r in s.rebuilds && RebuildOwes(c, s.rebuilds[r], u, EntryOf(s, id));
      assert r in s'.rebuilds && RebuildOwes(c, s'.rebuilds[r], u, EntryOf(s', id));
    }
  }

  // A dead-lettered message costs no other video anything.
  lemma OtherVideosKeepCover(c: Config, s: State, e: Event, u: nat, id: nat)
    requires Enabled(c, s, e) && e.DeadLetter? && id != s.tasks[e.task].video && id in s.videos && Covered(c, s, u, id)
    ensures Covered(c, Apply(c, s, e), u, id)
  {
    var s' := Apply(c, s, e);
    if FanoutInFlight(c, s, u, id) {
      var t :| t in s.tasks && Owes(c, s.tasks[t], u, id);
      assert t in s'.tasks && Owes(c, s'.tasks[t], u, id);
    }
  }

  // After this event the user's flag is down or going down, or a rebuild has yet to read the rows or has just read
  // them.
  ghost predicate Repairs(c: Config, s: State, e: Event, u: nat)
    requires Enabled(c, s, e)
  {
    match e
    case Follow(user, _, _) => user == u
    case Unfollow(user, _, _) => user == u
    case ClearFlag(reset) => s.resets[reset] == u
    case ExpireFlag(user) => user == u
    case RaiseFlag(_, user) => user == u
    case Query(rebuild, _) => s.rebuilds[rebuild].user == u
    case _ => false
  }

  // It covers every video the user follows, whatever was lost before.
  lemma RepairCovers(c: Config, s: State, e: Event, u: nat, id: nat)
    requires WellFormed(s) && Enabled(c, s, e) && Repairs(c, s, e, u)
    requires var s' := Apply(c, s, e); id in s'.public && id in s'.videos && Follows(s', u, id)
    ensures Covered(c, Apply(c, s, e), u, id)
  {
    var s' := Apply(c, s, e);
    match e
    case Follow(_, _, reset) => assert s'.resets[reset] == u;
    case Unfollow(_, _, reset) => assert s'.resets[reset] == u;
    case RaiseFlag(r, _) => MarkedOwes(c, s', r, u, id);
    case Query(r, rows) =>
      QueryCovers(c, s, u, id, rows);
      assert RebuildOwes(c, s'.rebuilds[r], u, EntryOf(s', id));
    case _ =>
  }

  // ---------------------------------------------------------------- tables

  // Publishing owes the video to everyone; following owes everything of the author through the reset.
  lemma TableEventCovers(c: Config, s: State, e: Event, u: nat, id: nat)
    requires WellFormed(s) && Enabled(c, s, e) && u > 0
    requires e.Publish? || e.Hide? || e.Follow? || e.Unfollow?
    requires id in Apply(c, s, e).public && id in Apply(c, s, e).videos && Follows(Apply(c, s, e), u, id)
    requires id in s.public && Follows(s, u, id) ==> Covered(c, s, u, id)
    ensures Covered(c, Apply(c, s, e), u, id)
  {
    var s' := Apply(c, s, e);
    if e.Publish? && id == e.id {
      assert Owes(c, s'.tasks[e.task], u, id);
    } else if e.Follow? && u == e.user {
      assert s'.resets[e.reset] == u;
    } else {
      OldCoverRemains(c, s, e, u, id);
    }
  }

  lemma OldCoverRemains(c: Config, s: State, e: Event, u: nat, id: nat)
    requires WellFormed(s) && Enabled(c, s, e) && id in s.videos && Covered(c, s, u, id)
    requires e.Publish? || e.Hide? || e.Follow? || e.Unfollow?
    ensures id in Apply(c, s, e).videos && Covered(c, Apply(c, s, e), u, id)
  {
    var s' := Apply(c, s, e);
    if FanoutInFlight(c, s, u, id) {
      var t :| t in s.tasks && Owes(c, s.tasks[t], u, id);
      assert Owes(c, s'.tasks[t], u, id);
    } else if ResetInFlight(s, u) {
      var r :| r in s.resets && s.resets[r] == u;
      assert s'.resets[r] == u;
    } else if RebuildInFlight(c, s, u, EntryOf(s, id)) {
      var r :| r in s.rebuilds && RebuildOwes(c, s.rebuilds[r], u, EntryOf(s, id));
      assert RebuildOwes(c, s'.rebuilds[r], u, EntryOf(s', id));
    }
  }

  // ---------------------------------------------------------------- well-formedness

  lemma TrimStaysScored(videos: map<nat, Video>, z: set<Entry>, n: nat)
    requires Scored(videos, z)
    ensures Scored(videos, KeepNewest(z, n))
  {}

  lemma InboxStaysScored(c: Config, s: State, e: Event)
    requires WellFormed(s) && Enabled(c, s, e)
    ensures forall u :: u in Apply(c, s, e).inbox ==> Scored(Apply(c, s, e).videos, Apply(c, s, e).inbox[u])
  {
    var s' := Apply(c, s, e);
    if e.PushOne? {
      var t := s.tasks[e.task];
      var item := EntryOf(s, t.video);
      var w := t.targets[t.pushed];
      PushStores(c, s, w, item);
      TrimStaysScored(s.videos, Box(s, w) + {item}, c.maxSize);
    } else if e.FillInbox? {
      var r := s.rebuilds[e.rebuild];
      if r.rows != [] {
        FillStores(c, s, r.user, r.rows);
        TrimStaysScored(s.videos, Box(s, r.user) + SetOf(r.rows), c.maxSize);
      }
    }
  }

  lemma TrimBounds(z: set<Entry>, n: nat)
    ensures |KeepNewest(z, n)| <= n
  {
    AboveIsStrictTotal();
    TopSize(z, Above, n);
  }

  lemma StaysBounded(c: Config, s: State, e: Event)
    requires Bounded(c, s) && Enabled(c, s, e)
    ensures Bounded(c, Apply(c, s, e))
  {
    match e
    case PushOne(task) =>
      var t := s.tasks[task];
      TrimBounds(ZAdd(Box(s, t.targets[t.pushed]), EntryOf(s, t.video)), c.maxSize);
    case FillInbox(rebuild) =>
      var r := s.rebuilds[rebuild];
      TrimBounds(ZAddAll(Box(s, r.user), r.rows), c.maxSize);
    case Remove(user, ids) =>
      if user in s.inbox {
        SubsetCard(Apply(c, s, e).inbox[user], s.inbox[user]);
      }
    case _ =>
  }

  lemma RebuildsStayScored(c: Config, s: State, e: Event)
    requires WellFormed(s) && Enabled(c, s, e)
    ensures var s' := Apply(c, s, e);
            forall r :: r in s'.rebuilds && s'.rebuilds[r].Queried? ==> Scored(s'.videos, SetOf(s'.rebuilds[r].rows))
  {
    if e.Query? {
      var u := s.rebuilds[e.rebuild].user;
      assert Scored(s.videos, Wanted(s, u));
      assert SetOf(e.rows) <= Wanted(s, u);
    }
  }

  lemma CheckStaysOk(s: State, t: Task)
    requires t.Running? && RunningOk(t) && t.checked < |t.ids|
    ensures RunningOk(AfterCheck(s, t))
  {
    assert t.ids[t.checked] in t.ids;
  }

  lemma TaskStaysOk(c: Config, s: State, e: Event, t: nat)
    requires WellFormed(s) && Enabled(c, s, e) && IsTaskEvent(e) && t in Apply(c, s, e).tasks
    ensures var s' := Apply(c, s, e); s'.tasks[t].video in s'.videos && RunningOk(s'.tasks[t])
  {
    assert RunningOk(s.tasks[e.task]);
    if e.List? {
      assert RunningOk(AfterList(c, s, s.tasks[e.task], e.ids));
    } else if e.Check? {
      CheckStaysOk(s, s.tasks[e.task]);
    }
  }

  lemma TasksStayOk(c: Config, s: State, e: Event)
    requires WellFormed(s) && Enabled(c, s, e)
    ensures var s' := Apply(c, s, e); forall t :: t in s'.tasks ==> s'.tasks[t].video in s'.videos && RunningOk(s'.tasks[t])
  {
    var s' := Apply(c, s, e);
    if IsTaskEvent(e) {
      forall t | t in s'.tasks ensures s'.tasks[t].video in s'.videos && RunningOk(s'.tasks[t]) {
        TaskStaysOk(c, s, e, t);
      }
    }
  }

  lemma StaysWellFormed(c: Config, s: State, e: Event)
    requires WellFormed(s) && Enabled(c, s, e)
    ensures WellFormed(Apply(c, s, e))
  {
    InboxStaysScored(c, s, e);
    RebuildsStayScored(c, s, e);
    TasksStayOk(c, s, e);
  }

  // ---------------------------------------------------------------- runs

  // An event that may not lose covers what was covered.
  lemma SafeEventCovers(c: Config, s: State, e: Event, u: nat, id: nat)
    requires ValidConfig(c) && WellFormed(s) && Enabled(c, s, e) && !MayLose(e) && u > 0
    requires id in Apply(c, s, e).public && id in Apply(c, s, e).videos && Follows(Apply(c, s, e), u, id)
    requires id in s.public && Follows(s, u, id) ==> Covered(c, s, u, id)
    ensures Covered(c, Apply(c, s, e), u, id)
  {
    if e.Publish? || e.Hide? || e.Follow? || e.Unfollow? {
      TableEventCovers(c, s, e, u, id);
    } else if IsTaskEvent(e) {
      TaskEventCovers(c, s, e, u, id);
    } else {
      FlagEventCovers(c, s, e, u, id);
    }
  }

  // What is not at risk stays covered.
  lemma RiskIsAllThereIs(c: Config, s: State, e: Event, u: nat, id: nat)
    requires Enabled(c, s, e) && MayLose(e) && id in s.public && id in s.videos && Follows(s, u, id)
    requires Covered(c, s, u, id)
    ensures Covered(c, Apply(c, s, e), u, id) || (u, id) in AtRisk(c, s, e)
  {
    if IsUserLoss(e) {
      if u != UserOf(c, s, e) {
        OthersKeepCover(c, s, e, u, id);
      }
    } else if id != s.tasks[e.task].video {
      OtherVideosKeepCover(c, s, e, u, id);
    } else {
      assert (u, s.videos[id].author) in s.follows;
      assert u in Followers(s, s.videos[id].author);
    }
  }

  lemma PairStaysAccounted(c: Config, s: State, lost: set<(nat, nat)>, e: Event, u: nat, id: nat)
    requires ValidConfig(c) && Inv(c, s, lost) && Enabled(c, s, e) && WellFormed(Apply(c, s, e))
    requires u > 0 && id in Apply(c, s, e).public && Follows(Apply(c, s, e), u, id)
    ensures Covered(c, Apply(c, s, e), u, id) || (u, id) in LostAfter(c, s, lost, e)
  {
    if (u, id) !in lost {
      if !MayLose(e) {
        SafeEventCovers(c, s, e, u, id);
      } else {
        RiskIsAllThereIs(c, s, e, u, id);
      }
    }
  }

  lemma EventKeepsInv(c: Config, s: State, lost: set<(nat, nat)>, e: Event)
    requires ValidConfig(c) && Inv(c, s, lost) && Enabled(c, s, e)
    ensures Inv(c, Apply(c, s, e), LostAfter(c, s, lost, e))
  {
    var s' := Apply(c, s, e);
    StaysWellFormed(c, s, e);
    StaysBounded(c, s, e);
    forall u, id | u > 0 && id in s'.public && Follows(s', u, id)
      ensures Covered(c, s', u, id) || (u, id) in LostAfter(c, s, lost, e) {
      PairStaysAccounted(c, s, lost, e, u, id);
    }
  }

  const EMPTY: State := State(map[], {}, {}, map[], {}, map[], map[], map[])

  // The events are enabled one after the other.
  ghost predicate IsRun(c: Config, s: State, events: seq<Event>)
    decreases |events|
  {
    events == [] || (Enabled(c, s, events[0]) && IsRun(c, Apply(c, s, events[0]), events[1..]))
  }

  ghost function Reached(c: Config, s: State, events: seq<Event>): State
    requires IsRun(c, s, events)
    decreases |events|
  {
    if events == [] then s else Reached(c, Apply(c, s, events[0]), events[1..])
  }

  // What the run has lost on the way and not covered again.
  ghost function Lost(c: Config, s: State, lost: set<(nat, nat)>, events: seq<Event>): set<(nat, nat)>
    requires IsRun(c, s, events)
    decreases |events|
  {
    if events == [] then lost else Lost(c, Apply(c, s, events[0]), LostAfter(c, s, lost, events[0]), events[1..])
  }

  lemma {:induction false} RunKeepsInv(c: Config, s: State, lost: set<(nat, nat)>, events: seq<Event>)
    requires ValidConfig(c) && Inv(c, s, lost) && IsRun(c, s, events)
    ensures Inv(c, Reached(c, s, events), Lost(c, s, lost, events))
    decreases |events|
  {
    if events != [] {
      EventKeepsInv(c, s, lost, events[0]);
      RunKeepsInv(c, Apply(c, s, events[0]), LostAfter(c, s, lost, events[0]), events[1..]);
    }
  }

  // In every run from empty stores, a followed public video is covered if and only if it was not lost.
  lemma NoVideoIsLost(c: Config, events: seq<Event>, u: nat, id: nat)
    requires ValidConfig(c) && IsRun(c, EMPTY, events)
    ensures var s := Reached(c, EMPTY, events);
            id in s.public && id in s.videos && u > 0 && Follows(s, u, id) ==>
              (Covered(c, s, u, id) <==> (u, id) !in Lost(c, EMPTY, {}, events))
  {
    RunKeepsInv(c, EMPTY, {}, events);
  }

  lemma {:induction false} SafeRunLosesNothing(c: Config, s: State, events: seq<Event>)
    requires IsRun(c, s, events) && forall i :: 0 <= i < |events| ==> !MayLose(events[i])
    ensures Lost(c, s, {}, events) == {}
    decreases |events|
  {
    if events != [] {
      assert LostAfter(c, s, {}, events[0]) == {};
      SafeRunLosesNothing(c, Apply(c, s, events[0]), events[1..]);
    }
  }

  ghost predicate Quiet(s: State) {
    s.tasks == map[] && s.rebuilds == map[] && s.resets == map[]
  }

  // Once nothing is in flight, a flagged user's inbox has every followed public video newer than what it was cut at.
  lemma QuietInboxIsComplete(c: Config, events: seq<Event>, u: nat, id: nat)
    requires ValidConfig(c) && IsRun(c, EMPTY, events) && (u, id) !in Lost(c, EMPTY, {}, events)
    requires var s := Reached(c, EMPTY, events);
             Quiet(s) && u > 0 && u in s.active && id in s.public && id in s.videos && Follows(s, u, id)
    ensures var s := Reached(c, EMPTY, events);
            || EntryOf(s, id) in Box(s, u)
            || (|Box(s, u)| == c.maxSize && forall x :: x in Box(s, u) ==> x.score >= s.videos[id].created)
  {
    NoVideoIsLost(c, events, u, id);
  }

  // ---------------------------------------------------------------- building runs

  lemma OneStep(c: Config, s: State, e: Event, rest: seq<Event>, s': State)
    requires Enabled(c, s, e) && Apply(c, s, e) == s' && IsRun(c, s', rest)
    ensures IsRun(c, s, [e] + rest) && Reached(c, s, [e] + rest) == Reached(c, s', rest)
  {
    assert ([e] + rest)[1..] == rest;
  }

  lemma {:induction false} RunThen(c: Config, s: State, a: seq<Event>, b: seq<Event>)
    requires IsRun(c, s, a) && IsRun(c, Reached(c, s, a), b)
    ensures IsRun(c, s, a + b) && Reached(c, s, a + b) == Reached(c, Reached(c, s, a), b)
    decreases |a|
  {
    if a == [] {
      assert a + b == b;
    } else {
      RunThen(c, Apply(c, s, a[0]), a[1..], b);
      assert (a + b)[1..] == a[1..] + b;
    }
  }
}
