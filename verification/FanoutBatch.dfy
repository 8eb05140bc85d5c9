/**
 A fan-out batch that nothing interrupts: its steps in the protocol add up to what the worker's method does to the
 inboxes and to the queue of batches.
*/
module FanoutBatch {
  import opened TopN
  import opened Inbox
  import opened FanoutWorker
  import opened FanoutProtocol
  import opened FanoutSafety

  function Repeat(e: Event, n: nat): seq<Event> {
    if n == 0 then [] else [e] + Repeat(e, n - 1)
  }

  ghost predicate Checking(t: Task, active: set<nat>) {
    t.Running? && t.checked <= |t.ids| && t.targets == Flagged(t.ids[..t.checked], active)
  }

  lemma CheckedOneMore(s: State, t: Task)
    requires Checking(t, s.active) && t.checked < |t.ids|
    ensures Checking(AfterCheck(s, t), s.active)
  {
    assert t.ids[..t.checked + 1][..t.checked] == t.ids[..t.checked];
  }

  function AllChecked(t: Task, active: set<nat>): Task
    requires t.Running?
  {
    t.(checked := |t.ids|, targets := Flagged(t.ids, active))
  }

  // Checking the rest of a batch leaves the flagged ones of the whole batch as targets.
  lemma {:induction false} ChecksRun(c: Config, s: State, t: nat, n: nat)
    requires t in s.tasks && Checking(s.tasks[t], s.active) && s.tasks[t].checked + n == |s.tasks[t].ids|
    ensures IsRun(c, s, Repeat(Check(t), n))
    ensures Reached(c, s, Repeat(Check(t), n)) == s.(tasks := s.tasks[t := AllChecked(s.tasks[t], s.active)])
    decreases n
  {
    var task := s.tasks[t];
    if n == 0 {
      assert task.ids[..task.checked] == task.ids;
      assert s.tasks[t := task] == s.tasks;
    } else {
      var s1 := s.(tasks := s.tasks[t := AfterCheck(s, task)]);
      CheckedOneMore(s, task);
      ChecksRun(c, s1, t, n - 1);
      OneStep(c, s, Check(t), Repeat(Check(t), n - 1), s1);
      assert s1.tasks[t := AllChecked(s1.tasks[t], s.active)] == s.tasks[t := AllChecked(task, s.active)];
    }
  }

  ghost predicate Pushed(c: Config, s: State, s': State, users: seq<nat>, e: Entry) {
    forall u :: Box(s', u) == if u != 0 && u in users then KeepNewest(ZAdd(Box(s, u), e), c.maxSize) else Box(s, u)
  }

  lemma PushOneMore(c: Config, s: State, s1: State, s2: State, users: seq<nat>, e: Entry)
    requires users != [] && s1.inbox == PushInto(c, s, users[0], e) && Pushed(c, s1, s2, users[1..], e)
    ensures Pushed(c, s, s2, users, e)
  {
    assert users == [users[0]] + users[1..];
    forall u {
      PushTwice(Box(s, u), e, c.maxSize);
    }
  }

  function AfterPush(c: Config, s: State, t: nat): State
    requires t in s.tasks && s.tasks[t].Running? && s.tasks[t].video in s.videos
             && s.tasks[t].pushed < |s.tasks[t].targets|
  {
    var task := s.tasks[t];
    s.(inbox := PushInto(c, s, task.targets[task.pushed], EntryOf(s, task.video)),
       tasks := s.tasks[t := task.(pushed := task.pushed + 1)])
  }

  lemma PushStep(c: Config, s: State, t: nat)
    requires t in s.tasks && s.tasks[t].Running? && s.tasks[t].video in s.videos
    requires s.tasks[t].checked == |s.tasks[t].ids| && s.tasks[t].pushed < |s.tasks[t].targets|
    ensures Enabled(c, s, PushOne(t)) && Apply(c, s, PushOne(t)) == AfterPush(c, s, t)
  {}

  lemma PushedHead(c: Config, s: State, s': State, task: Task, e: Entry)
    requires task.Running? && task.pushed < |task.targets|
    requires exists s1: State :: s1.inbox == PushInto(c, s, task.targets[task.pushed], e)
                                 && Pushed(c, s1, s', task.targets[task.pushed + 1..], e)
    ensures Pushed(c, s, s', task.targets[task.pushed..], e)
  {
    var s1: State :| s1.inbox == PushInto(c, s, task.targets[task.pushed], e)
                     && Pushed(c, s1, s', task.targets[task.pushed + 1..], e);
    assert task.targets[task.pushed..][1..] == task.targets[task.pushed + 1..];
    PushOneMore(c, s, s1, s', task.targets[task.pushed..], e);
  }

  // What the remaining pushes leave behind.
  ghost predicate AllPushed(c: Config, s: State, s': State, t: nat)
    requires t in s.tasks && s.tasks[t].Running? && s.tasks[t].video in s.videos
             && s.tasks[t].pushed <= |s.tasks[t].targets|
  {
    var task := s.tasks[t];
    && s' == s.(inbox := s'.inbox, tasks := s.tasks[t := task.(pushed := |task.targets|)])
    && Pushed(c, s, s', task.targets[task.pushed..], EntryOf(s, task.video))
  }

  lemma OneMorePushed(c: Config, s: State, s': State, t: nat)
    requires t in s.tasks && s.tasks[t].Running? && s.tasks[t].video in s.videos
             && s.tasks[t].pushed < |s.tasks[t].targets|
    requires AllPushed(c, AfterPush(c, s, t), s', t)
    ensures AllPushed(c, s, s', t)
  {
    PushedHead(c, s, s', s.tasks[t], EntryOf(s, s.tasks[t].video));
  }

  lemma {:induction false} PushesRun(c: Config, s: State, t: nat, n: nat)
    requires t in s.tasks && s.tasks[t].Running? && s.tasks[t].video in s.videos
    requires s.tasks[t].checked == |s.tasks[t].ids| && s.tasks[t].pushed + n == |s.tasks[t].targets|
    ensures IsRun(c, s, Repeat(PushOne(t), n))
    ensures AllPushed(c, s, Reached(c, s, Repeat(PushOne(t), n)), t)
    decreases n
  {
    if n == 0 {
      assert s.tasks[t := s.tasks[t]] == s.tasks;
      assert s.tasks[t].targets[s.tasks[t].pushed..] == [];
    } else {
      var s1 := AfterPush(c, s, t);
      PushStep(c, s, t);
      PushesRun(c, s1, t, n - 1);
      OneStep(c, s, PushOne(t), Repeat(PushOne(t), n - 1), s1);
      OneMorePushed(c, s, Reached(c, s1, Repeat(PushOne(t), n - 1)), t);
    }
  }

  // Who gets the video from this batch.
  function Targets(c: Config, s: State, author: nat, ids: seq<nat>): seq<nat> {
    if author in c.pushAll then ids else Flagged(ids, s.active)
  }

  function Listed(c: Config, s: State, t: nat, ids: seq<nat>): State
    requires t in s.tasks && s.tasks[t].Batch? && s.tasks[t].video in s.videos
  {
    var task := s.tasks[t];
    var targets := Targets(c, s, s.videos[task.video].author, ids);
    s.(tasks := s.tasks[t := Running(task.video, task.cursor, ids, |ids|, targets, 0)])
  }

  function Choose(c: Config, s: State, t: nat, ids: seq<nat>): seq<Event>
    requires t in s.tasks && s.tasks[t].video in s.videos
  {
    [List(t, ids)] + if s.videos[s.tasks[t].video].author in c.pushAll then [] else Repeat(Check(t), |ids|)
  }

  lemma ListStep(c: Config, s: State, t: nat, ids: seq<nat>)
    requires Enabled(c, s, List(t, ids))
    ensures Apply(c, s, List(t, ids)) == s.(tasks := s.tasks[t := AfterList(c, s, s.tasks[t], ids)])
  {}

  lemma ListedChecksRun(c: Config, s: State, t: nat, ids: seq<nat>, s1: State)
    requires t in s.tasks && s.tasks[t].Batch? && s.tasks[t].video in s.videos
    requires s.videos[s.tasks[t].video].author !in c.pushAll
    requires s1 == s.(tasks := s.tasks[t := AfterList(c, s, s.tasks[t], ids)])
    ensures IsRun(c, s1, Repeat(Check(t), |ids|)) && Reached(c, s1, Repeat(Check(t), |ids|)) == Listed(c, s, t, ids)
  {
    assert ids[..0] == [];
    ChecksRun(c, s1, t, |ids|);
    assert s.tasks[t := s1.tasks[t]][t := Listed(c, s, t, ids).tasks[t]] == Listed(c, s, t, ids).tasks;
  }

  lemma ChooseRuns(c: Config, s: State, t: nat, ids: seq<nat>)
    requires Enabled(c, s, List(t, ids))
    ensures IsRun(c, s, Choose(c, s, t, ids)) && Reached(c, s, Choose(c, s, t, ids)) == Listed(c, s, t, ids)
  {
    var s1 := s.(tasks := s.tasks[t := AfterList(c, s, s.tasks[t], ids)]);
    ListStep(c, s, t, ids);
    if s.videos[s.tasks[t].video].author in c.pushAll {
      OneStep(c, s, List(t, ids), [], s1);
    } else {
      ListedChecksRun(c, s, t, ids, s1);
      OneStep(c, s, List(t, ids), Repeat(Check(t), |ids|), s1);
    }
  }

  function WholeBatch(c: Config, s: State, t: nat, ids: seq<nat>, next: nat): seq<Event>
    requires t in s.tasks && s.tasks[t].video in s.videos
  {
    var targets := Targets(c, s, s.videos[s.tasks[t].video].author, ids);
    (Choose(c, s, t, ids) + Repeat(PushOne(t), |targets|)) + [Finish(t, next, true)]
  }

  // Listing, checking and pushing, up to the acknowledgement.
  lemma UpToPushes(c: Config, s: State, t: nat, ids: seq<nat>)
    requires Enabled(c, s, List(t, ids))
    ensures var targets := Targets(c, s, s.videos[s.tasks[t].video].author, ids);
            var steps := Choose(c, s, t, ids) + Repeat(PushOne(t), |targets|);
            && IsRun(c, s, steps)
            && var task, s' := s.tasks[t], Reached(c, s, steps);
               && s' == s.(inbox := s'.inbox,
                           tasks := s.tasks[t := Running(task.video, task.cursor, ids, |ids|, targets, |targets|)])
               && Pushed(c, s, s', targets, EntryOf(s, task.video))
  {
    var targets := Targets(c, s, s.videos[s.tasks[t].video].author, ids);
    var s1 := Listed(c, s, t, ids);
    ChooseRuns(c, s, t, ids);
    PushesRun(c, s1, t, |targets|);
    RunThen(c, s, Choose(c, s, t, ids), Repeat(PushOne(t), |targets|));
    assert targets[0..] == targets;
    assert forall u :: Box(s1, u) == Box(s, u);
  }

  lemma FinishRuns(c: Config, s: State, t: nat, next: nat)
    requires Enabled(c, s, Finish(t, next, true))
    ensures IsRun(c, s, [Finish(t, next, true)])
    ensures Reached(c, s, [Finish(t, next, true)]) == s.(tasks := AfterFinish(c, s, t, next, true))
  {
    var s' := Apply(c, s, Finish(t, next, true));
    OneStep(c, s, Finish(t, next, true), [], s');
    assert [Finish(t, next, true)] + [] == [Finish(t, next, true)];
  }

  lemma PushedIsDelivered(c: Config, s: State, s': State, author: nat, ids: seq<nat>, e: Entry)
    requires Pushed(c, s, s', Targets(c, s, author, ids), e)
    ensures forall u :: Box(s', u) == Delivered(Box(s, u), Reaches(ids, author in c.pushAll, s.active, u), e, c.maxSize)
  {}

  lemma AcknowledgedTasks(c: Config, s: State, s2: State, t: nat, next: nat, running: Task)
    requires t in s.tasks && running.Running? && s2.tasks == s.tasks[t := running] && next !in s.tasks
    ensures AfterFinish(c, s2, t, next, true) ==
              match NextCursor(running.ids, c.batchSize)
              case Some(cursor) => (s.tasks - {t})[next := Batch(running.video, cursor)]
              case None => s.tasks - {t}
  {
    assert s2.tasks - {t} == s.tasks - {t};
  }

  // The batch's steps, run without interruption, do to every inbox and to the queue of batches what HandleBatch
  // promises
  // for these ids, and change nothing else.
  lemma BatchIsHandleBatch(c: Config, s: State, t: nat, ids: seq<nat>, next: nat)
    requires Enabled(c, s, List(t, ids)) && next !in s.tasks
    ensures IsRun(c, s, WholeBatch(c, s, t, ids, next))
    ensures var task, s' := s.tasks[t], Reached(c, s, WholeBatch(c, s, t, ids, next));
            && s' == s.(inbox := s'.inbox, tasks := s'.tasks)
            && (forall u :: Box(s', u) ==
                  Delivered(Box(s, u), Reaches(ids, s.videos[task.video].author in c.pushAll, s.active, u),
                            EntryOf(s, task.video), c.maxSize))
            && s'.tasks == match NextCursor(ids, c.batchSize)
                           case Some(cursor) => (s.tasks - {t})[next := Batch(task.video, cursor)]
                           case None => s.tasks - {t}
  {
    var steps := Choose(c, s, t, ids) + Repeat(PushOne(t), |Targets(c, s, s.videos[s.tasks[t].video].author, ids)|);
    UpToPushes(c, s, t, ids);
    var s2 := Reached(c, s, steps);
    FinishRuns(c, s2, t, next);
    RunThen(c, s, steps, [Finish(t, next, true)]);
    AcknowledgedTasks(c, s, s2, t, next, s2.tasks[t]);
    PushedIsDelivered(c, s, s2, s.videos[s.tasks[t].video].author, ids, EntryOf(s, s.tasks[t].video));
  }

  // ---------------------------------------------------------------- an uninterrupted rebuild

  function WholeRebuild(rebuild: nat, user: nat, rows: seq<Entry>): seq<Event> {
    [RaiseFlag(rebuild, user)] + ([Query(rebuild, rows)] + [FillInbox(rebuild)])
  }

  lemma RaiseStep(c: Config, s: State, rebuild: nat, user: nat, rows: seq<Entry>)
    requires Enabled(c, s, RaiseFlag(rebuild, user)) && IsQuery(c, s, user, rows)
    ensures var s1 := Apply(c, s, RaiseFlag(rebuild, user));
            && s1 == s.(active := s.active + {user}, rebuilds := s.rebuilds[rebuild := Marked(user)])
            && Enabled(c, s1, Query(rebuild, rows))
  {
    var s1 := Apply(c, s, RaiseFlag(rebuild, user));
    assert Wanted(s1, user) == Wanted(s, user);
  }

  lemma QueryStep(c: Config, s: State, rebuild: nat, rows: seq<Entry>)
    requires Enabled(c, s, Query(rebuild, rows))
    ensures var s2 := Apply(c, s, Query(rebuild, rows));
            && s2 == s.(rebuilds := s.rebuilds[rebuild := Queried(s.rebuilds[rebuild].user, rows)])
            && Enabled(c, s2, FillInbox(rebuild))
  {}

  lemma FillStep(c: Config, s: State, rebuild: nat)
    requires Enabled(c, s, FillInbox(rebuild))
    ensures var r := s.rebuilds[rebuild];
            Apply(c, s, FillInbox(rebuild))
              == s.(inbox := FillInto(c, s, r.user, r.rows), rebuilds := s.rebuilds - {rebuild})
  {}

  lemma FillIntoIsRefilled(c: Config, s: State, user: nat, rows: seq<Entry>, s': State)
    requires (forall e :: e in rows ==> e.id != 0) && s'.inbox == FillInto(c, s, user, rows)
    ensures Box(s', user) == Refilled(Box(s, user), rows, c.maxSize)
    ensures forall u :: u != user ==> Box(s', u) == Box(s, u)
  {
    AllValid(rows);
  }

  lemma QueriedRowsHaveIds(c: Config, s: State, u: nat, rows: seq<Entry>)
    requires WellFormed(s) && IsQuery(c, s, u, rows)
    ensures forall e :: e in rows ==> e.id != 0
  {
    forall e | e in rows ensures e.id != 0 {
      assert e in SetOf(rows);
      assert e in Wanted(s, u);
    }
  }

  // Raising the flag, reading the rows and filling, with nothing in between, do to flags and inboxes what Rebuild
  // promises for a rebuild none of whose calls fails, and change nothing else.
  lemma RebuildIsRebuild(c: Config, s: State, rebuild: nat, user: nat, rows: seq<Entry>)
    requires WellFormed(s) && Enabled(c, s, RaiseFlag(rebuild, user)) && IsQuery(c, s, user, rows)
    ensures IsRun(c, s, WholeRebuild(rebuild, user, rows))
    ensures var s' := Reached(c, s, WholeRebuild(rebuild, user, rows));
            && s' == s.(inbox := s'.inbox, active := s.active + {user})
            && Box(s', user) == Refilled(Box(s, user), rows, c.maxSize)
            && forall u :: u != user ==> Box(s', u) == Box(s, u)
  {
    var s1 := s.(active := s.active + {user}, rebuilds := s.rebuilds[rebuild := Marked(user)]);
    var s2 := s1.(rebuilds := s1.rebuilds[rebuild := Queried(user, rows)]);
    var s3 := s.(inbox := FillInto(c, s2, user, rows), active := s.active + {user});
    RaiseStep(c, s, rebuild, user, rows);
    QueryStep(c, s1, rebuild, rows);
    FillStep(c, s2, rebuild);
    assert s2.rebuilds - {rebuild} == s.rebuilds;
    QueriedRowsHaveIds(c, s, user, rows);
    FillIntoIsRefilled(c, s, user, rows, s3);
    OneStep(c, s2, FillInbox(rebuild), [], s3);
    assert [FillInbox(rebuild)] + [] == [FillInbox(rebuild)];
    OneStep(c, s1, Query(rebuild, rows), [FillInbox(rebuild)], s2);
    OneStep(c, s, RaiseFlag(rebuild, user), [Query(rebuild, rows)] + [FillInbox(rebuild)], s1);
  }
}
