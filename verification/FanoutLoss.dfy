/**
 How the following feed does lose videos: a rebuild that fails behind its raised flag, and the removal of stale members
 from a full inbox, which then no longer looks full. When neither costs anything is stated exactly.
*/
module FanoutLoss {
  import opened TopN
  import opened Inbox
  import opened FanoutProtocol
  import opened FanoutSafety

  // ---------------------------------------------------------------- failures that cost nothing

  // The flag is down, another reset will take it down, or another rebuild has yet to read its rows.
  ghost predicate Shielded(s: State, e: Event, u: nat) {
    || u !in s.active
    || (exists r :: r in s.resets && s.resets[r] == u && !(e.ResetFails? && e.reset == r))
    || (exists r :: r in s.rebuilds && s.rebuilds[r] == Marked(u) && !(e.RebuildFails? && e.rebuild == r))
  }

  lemma ShieldedFailureCosts(c: Config, s: State, e: Event, u: nat, id: nat)
    requires WellFormed(s) && Enabled(c, s, e) && (e.RebuildFails? || e.ResetFails?) && u == UserOf(c, s, e)
    requires Shielded(s, e, u) && id in s.videos
    ensures Covered(c, Apply(c, s, e), u, id)
  {
    var s' := Apply(c, s, e);
    if r :| r in s.resets && s.resets[r] == u && !(e.ResetFails? && e.reset == r) {
      assert r in s'.resets && s'.resets[r] == u;
    } else if r :| r in s.rebuilds && s.rebuilds[r] == Marked(u) && !(e.RebuildFails? && e.rebuild == r) {
      MarkedOwes(c, s', r, u, id);
    }
  }

  // A failure of a shielded user's rebuild or reset loses nothing.
  lemma ShieldedFailureLosesNothing(c: Config, s: State, lost: set<(nat, nat)>, e: Event)
    requires Inv(c, s, lost) && Enabled(c, s, e) && (e.RebuildFails? || e.ResetFails?)
             && Shielded(s, e, UserOf(c, s, e))
    ensures LostAfter(c, s, lost, e) <= lost
  {
    forall p | p in LostAfter(c, s, lost, e) ensures p in lost {
      if p !in lost {
        ShieldedFailureCosts(c, s, e, p.0, p.1);
      }
    }
  }

  // ---------------------------------------------------------------- removals that cost nothing

  ghost predicate InBox(s: State, u: nat) {
    forall id :: id in s.public && id in s.videos && Follows(s, u, id) ==> EntryOf(s, id) in Box(s, u)
  }

  ghost predicate Unwanted(s: State, u: nat, ids: set<nat>) {
    forall id :: id in s.public && id in s.videos && Follows(s, u, id) ==> id !in ids
  }

  ghost predicate AllSeen(c: Config, s: State, u: nat) {
    forall id :: id in s.public && id in s.videos && Follows(s, u, id) ==> Covered(c, s, u, id)
  }

  lemma ShrunkBoxCutsNothing(c: Config, s: State, u: nat, ids: set<nat>, score: int)
    requires Bounded(c, s) && u > 0 && Box(Apply(c, s, Remove(u, ids)), u) != Box(s, u)
    ensures !CutOff(Box(Apply(c, s, Remove(u, ids)), u), score, c.maxSize)
  {
    SubsetCard(Box(Apply(c, s, Remove(u, ids)), u), Box(s, u));
  }

  lemma WantedStaysInBox(c: Config, s: State, u: nat, ids: set<nat>, id: nat)
    requires u > 0 && Unwanted(s, u, ids) && id in s.public && id in s.videos && Follows(s, u, id)
    ensures EntryOf(s, id) in Box(Apply(c, s, Remove(u, ids)), u) <==> EntryOf(s, id) in Box(s, u)
  {}

  lemma QuietCover(c: Config, s: State, u: nat, id: nat)
    requires Quiet(s) && u in s.active && id in s.videos
    ensures Covered(c, s, u, id) <==> Stored(Box(s, u), EntryOf(s, id), c.maxSize)
  {}

  // With nothing in flight, removing members nobody wants is safe if and only if it removes nothing or the inbox holds
  // every video its user may see: a full inbox that shrinks takes the videos behind it along.
  lemma RemovalIsSafeIff(c: Config, s: State, lost: set<(nat, nat)>, u: nat, ids: set<nat>)
    requires Inv(c, s, lost) && Quiet(s) && u > 0 && u in s.active && AllSeen(c, s, u) && Unwanted(s, u, ids)
    ensures var s' := Apply(c, s, Remove(u, ids));
            AllSeen(c, s', u) <==> Box(s', u) == Box(s, u) || InBox(s, u)
  {
    var s' := Apply(c, s, Remove(u, ids));
    forall id | id in s.public && id in s.videos && Follows(s, u, id)
      ensures Covered(c, s', u, id) <==> Box(s', u) == Box(s, u) || EntryOf(s, id) in Box(s, u) {
      QuietCover(c, s, u, id);
      QuietCover(c, s', u, id);
      WantedStaysInBox(c, s, u, ids, id);
      if Box(s', u) != Box(s, u) {
        ShrunkBoxCutsNothing(c, s, u, ids, s.videos[id].created);
      }
    }
  }

  // ---------------------------------------------------------------- a rebuild that fails

  // User 1 follows author 9, whose authors are pushed to flagged followers only; video 7 is published and fanned out.
  const MIDDLE: Config := Config(1000, 1000, {})
  const FOLLOWED: State := EMPTY.(follows := {(1, 9)})
  const FANNED_OUT: State := FOLLOWED.(videos := map[7 := Video(9, 100)], public := {7})

  function SetUp(): seq<Event> {
    [Follow(1, 9, 0)] + ([ClearFlag(0)] + [])
  }

  function OneBatch(): seq<Event> {
    [List(1, [1])] + ([Check(1)] + ([Finish(1, 2, true)] + []))
  }

  function FanOut(): seq<Event> {
    [Publish(7, Video(9, 100), 0)] + ([Start(0, 1, true)] + OneBatch())
  }

  lemma SetUpRuns()
    ensures IsRun(MIDDLE, EMPTY, SetUp()) && Reached(MIDDLE, EMPTY, SetUp()) == FOLLOWED
  {
    var s1 := EMPTY.(follows := {(1, 9)}, resets := map[0 := 1]);
    OneStep(MIDDLE, s1, ClearFlag(0), [], FOLLOWED);
    OneStep(MIDDLE, EMPTY, Follow(1, 9, 0), [ClearFlag(0)] + [], s1);
  }

  lemma BatchSkips()
    ensures var s := FANNED_OUT.(tasks := map[1 := Batch(7, 0)]);
            IsRun(MIDDLE, s, OneBatch()) && Reached(MIDDLE, s, OneBatch()) == FANNED_OUT
  {
    var s2 := FANNED_OUT.(tasks := map[1 := Batch(7, 0)]);
    var s3 := FANNED_OUT.(tasks := map[1 := Running(7, 0, [1], 0, [], 0)]);
    var s4 := FANNED_OUT.(tasks := map[1 := Running(7, 0, [1], 1, [], 0)]);
    OneStep(MIDDLE, s4, Finish(1, 2, true), [], FANNED_OUT);
    OneStep(MIDDLE, s3, Check(1), [Finish(1, 2, true)] + [], s4);
    OnlyFollower(s2);
    OneStep(MIDDLE, s2, List(1, [1]), [Check(1)] + ([Finish(1, 2, true)] + []), s3);
  }

  lemma OnlyFollower(s: State)
    requires s.follows == {(1, 9)}
    ensures Followers(s, 9) == {1}
  {
    assert (1, 9) in s.follows;
  }

  lemma FanOutSkips()
    ensures IsRun(MIDDLE, FOLLOWED, FanOut()) && Reached(MIDDLE, FOLLOWED, FanOut()) == FANNED_OUT
  {
    var s1 := FANNED_OUT.(tasks := map[0 := Published(7)]);
    var s2 := FANNED_OUT.(tasks := map[1 := Batch(7, 0)]);
    BatchSkips();
    OnlyFollower(s1);
    OneStep(MIDDLE, s1, Start(0, 1, true), OneBatch(), s2);
    OneStep(MIDDLE, FOLLOWED, Publish(7, Video(9, 100), 0), [Start(0, 1, true)] + OneBatch(), s1);
  }

  const RAISED: State := FANNED_OUT.(active := {1}, rebuilds := map[0 := Marked(1)])
  const LEFT_UP: State := FANNED_OUT.(active := {1})

  function FailedRebuild(): seq<Event> {
    [RaiseFlag(0, 1)] + ([RebuildFails(0)] + [])
  }

  lemma FailedRebuildRuns()
    ensures IsRun(MIDDLE, FANNED_OUT, FailedRebuild()) && Reached(MIDDLE, FANNED_OUT, FailedRebuild()) == LEFT_UP
  {
    OneStep(MIDDLE, RAISED, RebuildFails(0), [], LEFT_UP);
    OneStep(MIDDLE, FANNED_OUT, RaiseFlag(0, 1), [RebuildFails(0)] + [], RAISED);
  }

  // A run: user 1 follows, a video is fanned out past his lowered flag, his rebuild raises it and fails.
  function LossRun(): seq<Event> {
    SetUp() + (FanOut() + FailedRebuild())
  }

  lemma LossRuns()
    ensures IsRun(MIDDLE, EMPTY, LossRun()) && Reached(MIDDLE, EMPTY, LossRun()) == LEFT_UP
  {
    SetUpRuns();
    FanOutSkips();
    FailedRebuildRuns();
    RunThen(MIDDLE, FOLLOWED, FanOut(), FailedRebuild());
    RunThen(MIDDLE, EMPTY, SetUp(), FanOut() + FailedRebuild());
  }

  // Nothing is in flight and the flag is up, yet a followed public video will not be seen.
  ghost predicate HasLost(c: Config, s: State, u: nat, id: nat) {
    && Quiet(s) && u in s.active && id in s.public && id in s.videos && Follows(s, u, id) && !Covered(c, s, u, id)
  }

  lemma LeftUpHasLost()
    ensures HasLost(MIDDLE, LEFT_UP, 1, 7)
  {}

  lemma FailedRebuildLosesVideo()
    ensures IsRun(MIDDLE, EMPTY, LossRun()) && HasLost(MIDDLE, Reached(MIDDLE, EMPTY, LossRun()), 1, 7)
  {
    LossRuns();
    LeftUpHasLost();
  }

  lemma NothingToRead()
    ensures IsQuery(MIDDLE, FOLLOWED, 1, [])
  {
    assert Wanted(FOLLOWED, 1) == {};
    assert SetOf<Entry>([]) == {};
    assert Top(Wanted(FOLLOWED, 1), Newer, MIDDLE.maxSize) == {};
  }

  // The same happens when the rows are read before the fan-out and the flag is raised only behind it.
  lemma FlagAfterQueryLosesVideo()
    ensures IsRun(MIDDLE, EMPTY, SetUp()) && IsQuery(MIDDLE, Reached(MIDDLE, EMPTY, SetUp()), 1, [])
    ensures IsRun(MIDDLE, Reached(MIDDLE, EMPTY, SetUp()), FanOut())
    ensures var s := Reached(MIDDLE, Reached(MIDDLE, EMPTY, SetUp()), FanOut());
            HasLost(MIDDLE, s.(active := s.active + {1}, inbox := FillInto(MIDDLE, s, 1, [])), 1, 7)
  {
    SetUpRuns();
    NothingToRead();
    FanOutSkips();
    LeftUpHasLost();
    assert FANNED_OUT.(active := FANNED_OUT.active + {1}, inbox := FillInto(MIDDLE, FANNED_OUT, 1, [])) == LEFT_UP;
  }

  // ---------------------------------------------------------------- a removal from a full inbox

  // An inbox of one. Videos 7 and 8 are out before anybody follows their author; user 1's rebuild keeps the newer one.
  const TINY: Config := Config(1, 1000, {})
  const VIDEOS: map<nat, Video> := map[7 := Video(9, 100), 8 := Video(9, 200)]
  const SEVEN: State := EMPTY.(videos := map[7 := Video(9, 100)], public := {7})
  const BOTH: State := EMPTY.(videos := VIDEOS, public := {7, 8})
  const FOLLOWING: State := BOTH.(follows := {(1, 9)})
  const FILLED: State := FOLLOWING.(active := {1}, inbox := map[1 := {Entry(8, 200)}])
  const HIDDEN: State := FILLED.(public := {7})
  const CLEANED: State := HIDDEN.(inbox := map[1 := {}])

  function PublishUnfollowed(id: nat, video: Video): seq<Event> {
    [Publish(id, video, 0)] + ([Start(0, 1, true)] + [])
  }

  lemma PublishUnfollowedRuns(s: State, id: nat, video: Video)
    requires s.tasks == map[] && s.follows == {} && id > 0 && id !in s.public && id !in s.videos
    ensures var s' := s.(videos := s.videos[id := video], public := s.public + {id});
            IsRun(TINY, s, PublishUnfollowed(id, video)) && Reached(TINY, s, PublishUnfollowed(id, video)) == s'
  {
    var s' := s.(videos := s.videos[id := video], public := s.public + {id});
    assert Followers(s', video.author) == {};
    OneStep(TINY, s'.(tasks := map[0 := Published(id)]), Start(0, 1, true), [], s');
    OneStep(TINY, s, Publish(id, video, 0), [Start(0, 1, true)] + [], s'.(tasks := map[0 := Published(id)]));
  }

  function FollowLater(): seq<Event> {
    [Follow(1, 9, 0)] + ([ClearFlag(0)] + [])
  }

  lemma FollowLaterRuns()
    ensures IsRun(TINY, BOTH, FollowLater()) && Reached(TINY, BOTH, FollowLater()) == FOLLOWING
  {
    OneStep(TINY, FOLLOWING.(resets := map[0 := 1]), ClearFlag(0), [], FOLLOWING);
    OneStep(TINY, BOTH, Follow(1, 9, 0), [ClearFlag(0)] + [], FOLLOWING.(resets := map[0 := 1]));
  }

  const ROWS: seq<Entry> := [Entry(8, 200)]

  lemma NewestOfBoth(s: State)
    requires s.videos == VIDEOS && s.public == {7, 8} && s.follows == {(1, 9)}
    ensures IsQuery(TINY, s, 1, ROWS)
  {
    var x, y := Entry(7, 100), Entry(8, 200);
    assert 7 in s.public && 8 in s.public && EntryOf(s, 7) == x && EntryOf(s, 8) == y;
    assert Wanted(s, 1) == {x, y};
    var rows := [y, x];
    assert rows[0] in rows && rows[1] in rows;
    assert SetOf(rows) == {x, y};
    NewerIsStrictTotal();
    PrefixIsTop(rows, Newer, 1);
    assert rows[..1] == ROWS;
  }

  lemma FillOfOne(s: State)
    requires s.inbox == map[]
    ensures FillInto(TINY, s, 1, ROWS) == map[1 := {Entry(8, 200)}]
  {
    OneEntry({}, Entry(8, 200));
    assert ZAdd({}, Entry(8, 200)) == {Entry(8, 200)};
    AboveIsStrictTotal();
    TopIsFixed({Entry(8, 200)}, Above, 1);
  }

  function RebuildOnce(): seq<Event> {
    [RaiseFlag(0, 1)] + ([Query(0, ROWS)] + ([FillInbox(0)] + []))
  }

  lemma RebuildOnceRuns()
    ensures IsRun(TINY, FOLLOWING, RebuildOnce()) && Reached(TINY, FOLLOWING, RebuildOnce()) == FILLED
  {
    var marked := FOLLOWING.(active := {1}, rebuilds := map[0 := Marked(1)]);
    var queried := marked.(rebuilds := map[0 := Queried(1, ROWS)]);
    FillOfOne(queried);
    NewestOfBoth(marked);
    OneStep(TINY, queried, FillInbox(0), [], FILLED);
    OneStep(TINY, marked, Query(0, ROWS), [FillInbox(0)] + [], queried);
    OneStep(TINY, FOLLOWING, RaiseFlag(0, 1), [Query(0, ROWS)] + ([FillInbox(0)] + []), marked);
  }

  function HideAndClean(): seq<Event> {
    [Hide(8)] + ([Remove(1, {8})] + [])
  }

  lemma HideAndCleanRuns()
    ensures IsRun(TINY, FILLED, HideAndClean()) && Reached(TINY, FILLED, HideAndClean()) == CLEANED
  {
    assert RemoveFrom(HIDDEN, 1, {8})[1] == {};
    OneStep(TINY, HIDDEN, Remove(1, {8}), [], CLEANED);
    OneStep(TINY, FILLED, Hide(8), [Remove(1, {8})] + [], HIDDEN);
  }

  function FromBoth(): seq<Event> {
    FollowLater() + (RebuildOnce() + HideAndClean())
  }

  lemma FromBothRuns()
    ensures IsRun(TINY, BOTH, FromBoth()) && Reached(TINY, BOTH, FromBoth()) == CLEANED
  {
    FollowLaterRuns();
    RebuildOnceRuns();
    HideAndCleanRuns();
    RunThen(TINY, FOLLOWING, RebuildOnce(), HideAndClean());
    RunThen(TINY, BOTH, FollowLater(), RebuildOnce() + HideAndClean());
  }

  function TwoVideos(): seq<Event> {
    PublishUnfollowed(7, Video(9, 100)) + PublishUnfollowed(8, Video(9, 200))
  }

  lemma TwoVideosRun()
    ensures IsRun(TINY, EMPTY, TwoVideos()) && Reached(TINY, EMPTY, TwoVideos()) == BOTH
  {
    PublishUnfollowedRuns(EMPTY, 7, Video(9, 100));
    PublishUnfollowedRuns(SEVEN, 8, Video(9, 200));
    RunThen(TINY, EMPTY, PublishUnfollowed(7, Video(9, 100)), PublishUnfollowed(8, Video(9, 200)));
  }

  // Two videos, a follower, his rebuild; the newer one is taken down and a reader cleans it up.
  function CleanUpRun(): seq<Event> {
    TwoVideos() + FromBoth()
  }

  lemma CleanedHasLost()
    ensures HasLost(TINY, CLEANED, 1, 7) && |Box(CLEANED, 1)| < TINY.maxSize
  {}

  // The older video was behind a full inbox; now it is behind one that is not full, and no reader looks for it.
  lemma CleanUpLosesOlderVideo()
    ensures IsRun(TINY, EMPTY, CleanUpRun()) && HasLost(TINY, Reached(TINY, EMPTY, CleanUpRun()), 1, 7)
    ensures |Box(Reached(TINY, EMPTY, CleanUpRun()), 1)| < TINY.maxSize
  {
    TwoVideosRun();
    FromBothRuns();
    RunThen(TINY, EMPTY, TwoVideos(), FromBoth());
    CleanedHasLost();
  }
}
