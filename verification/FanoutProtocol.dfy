/**
 The following feed as a protocol (feed/service.go rebuildInbox, worker/fanout_worker.go, worker/social_worker.go).
 Every database transaction and every Redis command is one event; events of different workers and readers interleave
 freely, and a worker may die between any two of its own.
*/
module FanoutProtocol {
  import opened TopN
  import opened Batches
  import opened Inbox

  datatype Video = Video(author: nat, created: int)

  datatype Task =
    | Published(video: nat)
    | Batch(video: nat, cursor: nat)
    | Running(video: nat, cursor: nat, ids: seq<nat>, checked: nat, targets: seq<nat>, pushed: nat)

  // A reader inside rebuildInbox: flag raised, or rows read and not yet filled.
  datatype Rebuild = Marked(user: nat) | Queried(user: nat, rows: seq<Entry>)

  datatype State = State(
    videos: map<nat, Video>,
    public: set<nat>,
    follows: set<(nat, nat)>,
    inbox: map<nat, set<Entry>>,
    active: set<nat>,
    tasks: map<nat, Task>,
    rebuilds: map<nat, Rebuild>,
    resets: map<nat, nat>)

  // Authors in `pushAll` are below the push threshold; every other one is below the pull threshold.
  datatype Config = Config(maxSize: nat, batchSize: nat, pushAll: set<nat>)

  predicate ValidConfig(c: Config) {
    c.maxSize >= 1 && c.batchSize >= 1
  }

  datatype Event =
    | Publish(id: nat, video: Video, task: nat)
    | Hide(id: nat)
    | Start(task: nat, next: nat, acked: bool)
    | List(task: nat, ids: seq<nat>)
    | Check(task: nat)
    | PushOne(task: nat)
    | Finish(task: nat, next: nat, acked: bool)
    | Crash(task: nat)
    | DeadLetter(task: nat)
    | Follow(user: nat, author: nat, reset: nat)
    | Unfollow(user: nat, author: nat, reset: nat)
    | ClearFlag(reset: nat)
    | ExpireFlag(user: nat)
    | RaiseFlag(rebuild: nat, user: nat)
    | Query(rebuild: nat, rows: seq<Entry>)
    | FillInbox(rebuild: nat)
    | RebuildFails(rebuild: nat)
    | ResetFails(reset: nat)
    | Remove(user: nat, stale: set<nat>)

  // ---------------------------------------------------------------- reading a state

  function Box(s: State, u: nat): set<Entry> {
    if u in s.inbox then s.inbox[u] else {}
  }

  function EntryOf(s: State, id: nat): Entry
    requires id in s.videos
  {
    Entry(id, s.videos[id].created)
  }

  function Followers(s: State, author: nat): set<nat> {
    set p | p in s.follows && p.1 == author :: p.0
  }

  predicate Follows(s: State, u: nat, id: nat)
    requires id in s.videos
  {
    (u, s.videos[id].author) in s.follows
  }

  function Wanted(s: State, u: nat): set<Entry> {
    set id | id in s.public && id in s.videos && Follows(s, u, id) :: EntryOf(s, id)
  }

  ghost predicate IsQuery(c: Config, s: State, u: nat, rows: seq<Entry>) {
    && (forall i, j :: 0 <= i < j < |rows| ==> Newer(rows[i], rows[j]))
    && SetOf(rows) == Top(Wanted(s, u), Newer, c.maxSize)
  }

  // ---------------------------------------------------------------- the events

  ghost predicate Enabled(c: Config, s: State, e: Event) {
    match e
    case Publish(id, video, task) =>
      id > 0 && id !in s.public && task !in s.tasks && (id in s.videos ==> s.videos[id] == video)
    case Hide(id) => id in s.public
    case Start(task, next, _) => task in s.tasks && s.tasks[task].Published? && next !in s.tasks
    case List(task, ids) =>
      && task in s.tasks && s.tasks[task].Batch? && s.tasks[task].video in s.videos
      && IsBatch(Followers(s, s.videos[s.tasks[task].video].author), s.tasks[task].cursor, c.batchSize, ids)
    case Check(task) =>
      task in s.tasks && s.tasks[task].Running? && s.tasks[task].checked < |s.tasks[task].ids|
    case PushOne(task) =>
      && task in s.tasks && s.tasks[task].Running? && s.tasks[task].video in s.videos
      && s.tasks[task].checked >= |s.tasks[task].ids| && s.tasks[task].pushed < |s.tasks[task].targets|
    case Finish(task, next, _) =>
      && task in s.tasks && s.tasks[task].Running? && next !in s.tasks
      && s.tasks[task].checked >= |s.tasks[task].ids| && s.tasks[task].pushed >= |s.tasks[task].targets|
    case Crash(task) => task in s.tasks && s.tasks[task].Running?
    case DeadLetter(task) => task in s.tasks
    case Follow(_, _, reset) => reset !in s.resets
    case Unfollow(_, _, reset) => reset !in s.resets
    case ClearFlag(reset) => reset in s.resets
    case ExpireFlag(_) => true
    case RaiseFlag(rebuild, user) => rebuild !in s.rebuilds && user > 0
    case Query(rebuild, rows) =>
      rebuild in s.rebuilds && s.rebuilds[rebuild].Marked? && IsQuery(c, s, s.rebuilds[rebuild].user, rows)
    case FillInbox(rebuild) => rebuild in s.rebuilds && s.rebuilds[rebuild].Queried?
    case RebuildFails(rebuild) => rebuild in s.rebuilds
    case ResetFails(reset) => reset in s.resets
    case Remove(user, _) => user > 0
  }

  // The message was handled; the broker may still deliver it again.
  function Ack(tasks: map<nat, Task>, task: nat, again: Task, acked: bool): map<nat, Task> {
    if acked then tasks - {task} else tasks[task := again]
  }

  function AfterList(c: Config, s: State, t: Task, ids: seq<nat>): Task
    requires t.Batch? && t.video in s.videos
  {
    if s.videos[t.video].author in c.pushAll then Running(t.video, t.cursor, ids, |ids|, ids, 0)
    else Running(t.video, t.cursor, ids, 0, [], 0)
  }

  function AfterCheck(s: State, t: Task): Task
    requires t.Running? && t.checked < |t.ids|
  {
    var u := t.ids[t.checked];
    t.(checked := t.checked + 1, targets := if u in s.active then t.targets + [u] else t.targets)
  }

  predicate Full(c: Config, t: Task) {
    t.Running? && |t.ids| > 0 && |t.ids| >= c.batchSize
  }

  function PushInto(c: Config, s: State, u: nat, e: Entry): map<nat, set<Entry>> {
    if u == 0 then s.inbox else s.inbox[u := KeepNewest(ZAdd(Box(s, u), e), c.maxSize)]
  }

  function FillInto(c: Config, s: State, u: nat, rows: seq<Entry>): map<nat, set<Entry>> {
    if rows == [] then s.inbox else s.inbox[u := KeepNewest(ZAddAll(Box(s, u), rows), c.maxSize)]
  }

  // A reader drops the members it took for stale. What it knew of follows and videos may be out of date by now, so this
  // may be any set of ids.
  function RemoveFrom(s: State, u: nat, ids: set<nat>): map<nat, set<Entry>> {
    if u in s.inbox then s.inbox[u := set x | x in s.inbox[u] && x.id !in ids] else s.inbox
  }

  ghost function Apply(c: Config, s: State, e: Event): State
    requires Enabled(c, s, e)
  {
    match e
    case Publish(id, video, task) =>
      s.(videos := s.videos[id := video], public := s.public + {id}, tasks := s.tasks[task := Published(id)])
    case Hide(id) => s.(public := s.public - {id})
    case Start(task, next, acked) => s.(tasks := AfterStart(s, task, next, acked))
    case List(task, ids) => s.(tasks := s.tasks[task := AfterList(c, s, s.tasks[task], ids)])
    case Check(task) => s.(tasks := s.tasks[task := AfterCheck(s, s.tasks[task])])
    case PushOne(task) =>
      var t := s.tasks[task];
      s.(inbox := PushInto(c, s, t.targets[t.pushed], EntryOf(s, t.video)),
         tasks := s.tasks[task := t.(pushed := t.pushed + 1)])
    case Finish(task, next, acked) => s.(tasks := AfterFinish(c, s, task, next, acked))
    case Crash(task) => s.(tasks := s.tasks[task := Batch(s.tasks[task].video, s.tasks[task].cursor)])
    case DeadLetter(task) => s.(tasks := s.tasks - {task})
    case Follow(user, author, reset) =>
      s.(follows := s.follows + {(user, author)}, resets := s.resets[reset := user])
    case Unfollow(user, author, reset) =>
      s.(follows := s.follows - {(user, author)}, resets := s.resets[reset := user])
    case ClearFlag(reset) => s.(active := s.active - {s.resets[reset]}, resets := s.resets - {reset})
    case ExpireFlag(user) => s.(active := s.active - {user})
    case RaiseFlag(rebuild, user) =>
      s.(active := s.active + {user}, rebuilds := s.rebuilds[rebuild := Marked(user)])
    case Query(rebuild, rows) =>
      s.(rebuilds := s.rebuilds[rebuild := Queried(s.rebuilds[rebuild].user, rows)])
    case FillInbox(rebuild) =>
      var r := s.rebuilds[rebuild];
      s.(inbox := FillInto(c, s, r.user, r.rows), rebuilds := s.rebuilds - {rebuild})
    case RebuildFails(rebuild) => s.(rebuilds := s.rebuilds - {rebuild})
    case ResetFails(reset) => s.(resets := s.resets - {reset})
    case Remove(user, ids) => s.(inbox := RemoveFrom(s, user, ids))
  }

  // handlePublished starts nothing when nobody follows the author.
  function AfterStart(s: State, task: nat, next: nat, acked: bool): map<nat, Task>
    requires task in s.tasks && s.tasks[task].Published?
  {
    var t := s.tasks[task];
    var rest := Ack(s.tasks, task, t, acked);
    if t.video !in s.videos || Followers(s, s.videos[t.video].author) == {} then rest
    else rest[next := Batch(t.video, 0)]
  }

  function AfterFinish(c: Config, s: State, task: nat, next: nat, acked: bool): map<nat, Task>
    requires task in s.tasks && s.tasks[task].Running?
  {
    var t := s.tasks[task];
    var rest := Ack(s.tasks, task, Batch(t.video, t.cursor), acked);
    if Full(c, t) then rest[next := Batch(t.video, t.ids[|t.ids| - 1])] else rest
  }

  // ---------------------------------------------------------------- what is owed

  // In the inbox, or cut off behind maxSize entries that are at least as new.
  predicate Stored(z: set<Entry>, e: Entry, maxSize: nat) {
    e in z || CutOff(z, e.score, maxSize)
  }

  predicate CutOff(z: set<Entry>, score: int, maxSize: nat) {
    |z| == maxSize && forall x :: x in z ==> x.score >= score
  }

  predicate Owes(c: Config, t: Task, u: nat, id: nat) {
    && t.video == id
    && match t
       case Published(_) => true
       case Batch(_, cursor) => u > cursor
       case Running(_, _, ids, checked, targets, pushed) =>
         || (checked <= |ids| && u in ids[checked..])
         || (pushed <= |targets| && u in targets[pushed..])
         || (Full(c, t) && u > ids[|ids| - 1])
  }

  predicate RebuildOwes(c: Config, r: Rebuild, u: nat, e: Entry) {
    r.user == u && (r.Queried? ==> Stored(SetOf(r.rows), e, c.maxSize))
  }

  predicate FanoutInFlight(c: Config, s: State, u: nat, id: nat) {
    exists t :: t in s.tasks && Owes(c, s.tasks[t], u, id)
  }

  predicate ResetInFlight(s: State, u: nat) {
    exists r :: r in s.resets && s.resets[r] == u
  }

  predicate RebuildInFlight(c: Config, s: State, u: nat, e: Entry) {
    exists r :: r in s.rebuilds && RebuildOwes(c, s.rebuilds[r], u, e)
  }

  predicate Covered(c: Config, s: State, u: nat, id: nat)
    requires id in s.videos
  {
    || Stored(Box(s, u), EntryOf(s, id), c.maxSize)
    || u !in s.active
    || FanoutInFlight(c, s, u, id)
    || ResetInFlight(s, u)
    || RebuildInFlight(c, s, u, EntryOf(s, id))
  }

  // ---------------------------------------------------------------- the invariant

  // One fixed score per video.
  predicate Scored(videos: map<nat, Video>, z: set<Entry>) {
    forall e :: e in z ==> e.id in videos && e.score == videos[e.id].created
  }

  predicate RunningOk(t: Task) {
    t.Running? ==>
      && t.checked <= |t.ids| && t.pushed <= |t.targets|
      && (forall u :: u in t.ids ==> u > t.cursor)
      && (forall u :: u in t.targets ==> u > t.cursor)
  }

  ghost predicate WellFormed(s: State) {
    && s.public <= s.videos.Keys && 0 !in s.videos
    && (forall u :: u in s.inbox ==> Scored(s.videos, s.inbox[u]))
    && (forall r :: r in s.rebuilds && s.rebuilds[r].Queried? ==> Scored(s.videos, SetOf(s.rebuilds[r].rows)))
    && (forall t :: t in s.tasks ==> s.tasks[t].video in s.videos && RunningOk(s.tasks[t]))
  }

  ghost predicate Bounded(c: Config, s: State) {
    forall u :: u in s.inbox ==> |s.inbox[u]| <= c.maxSize
  }

  // ---------------------------------------------------------------- what is lost

  // A rebuild or a reset that ends half way, and a removal, may cost their user videos.
  predicate IsUserLoss(e: Event) {
    e.RebuildFails? || e.ResetFails? || e.Remove?
  }

  // A fan-out message that ends among the dead letters may cost followers its video.
  predicate MayLose(e: Event) {
    IsUserLoss(e) || e.DeadLetter?
  }

  ghost function UserOf(c: Config, s: State, e: Event): nat
    requires Enabled(c, s, e) && IsUserLoss(e)
  {
    match e
    case RebuildFails(r) => s.rebuilds[r].user
    case ResetFails(r) => s.resets[r]
    case Remove(u, _) => u
  }

  ghost function AtRisk(c: Config, s: State, e: Event): set<(nat, nat)>
    requires Enabled(c, s, e)
  {
    if IsUserLoss(e) then
      var u := UserOf(c, s, e);
      set id | id in s.public && id in s.videos && Follows(s, u, id) :: (u, id)
    else if e.DeadLetter? && s.tasks[e.task].video in s.videos then
      var id := s.tasks[e.task].video;
      set u | u in Followers(s, s.videos[id].author) :: (u, id)
    else {}
  }

  // The videos lost so far and not covered again, as pairs of user and video: only those at risk in this event join
  // them.
  ghost function LostAfter(c: Config, s: State, lost: set<(nat, nat)>, e: Event): set<(nat, nat)>
    requires Enabled(c, s, e)
  {
    var s' := Apply(c, s, e);
    set p | p in lost + AtRisk(c, s, e) && p.1 in s'.videos && !Covered(c, s', p.0, p.1)
  }

  // A followed public video is covered unless it was lost, and what counts as lost is not covered.
  ghost predicate AllCovered(c: Config, s: State, lost: set<(nat, nat)>)
    requires WellFormed(s)
  {
    && (forall u, id :: u > 0 && id in s.public && Follows(s, u, id) ==> Covered(c, s, u, id) || (u, id) in lost)
    && (forall p :: p in lost ==> p.1 in s.videos && !Covered(c, s, p.0, p.1))
  }

  ghost predicate Inv(c: Config, s: State, lost: set<(nat, nat)>) {
    WellFormed(s) && Bounded(c, s) && AllCovered(c, s, lost)
  }
}
