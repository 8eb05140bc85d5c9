/**
 A run on which an event counts twice. Two events are written in one minute. The first one's script runs but seems to
 fail, so its projection row stays; the second waits in the queue and is recorded more than an hour later, which keeps the
 bucket alive beyond the first event's key; then the row is replayed.
*/
module LateReplay {
  import opened LeaseTable
  import P = Pollers
  import opened Pipeline
  import opened PipelineBooks
  import opened PipelineSafety
  import opened PipelineScores
  import opened PipelineTiming
  import opened PopularityWorker

  // ---------------------------------------------------------------- one poller alone

  function PollSteps(step: P.Op -> Step, id: nat): seq<Step> {
    [step(P.Claim([id], 0, 30))] + ([step(P.Send)] + ([step(P.Drop(true))] + ([step(P.Die)] + [])))
  }

  function OneRow(id: nat): P.Desk {
    P.Desk(map[id := NewRow(0)], map[])
  }

  function Claimed(id: nat, done: bool): P.Desk {
    P.Desk(map[id := Lease(NewRow(0), 0)], map[0 := P.Poller([id], done)])
  }

  const DROPPED: P.Desk := P.Desk(map[], map[0 := P.Poller([], false)])

  lemma DeskStarts(id: nat)
    ensures P.Can(OneRow(id), 0, P.Claim([id], 0, 30))
            && P.Work(OneRow(id), 0, P.Claim([id], 0, 30)) == Claimed(id, false)
    ensures P.Can(Claimed(id, false), 0, P.Send) && P.Work(Claimed(id, false), 0, P.Send) == Claimed(id, true)
  {
    AllStillDue(map[id := NewRow(0)], [id], 0, 30);
    assert Leases(map[id := NewRow(0)], [id], 0) == map[id := Lease(NewRow(0), 0)];
  }

  lemma DeskEnds(id: nat)
    ensures P.Can(Claimed(id, true), 0, P.Drop(true)) && P.Work(Claimed(id, true), 0, P.Drop(true)) == DROPPED
    ensures P.Can(DROPPED, 0, P.Die) && P.Work(DROPPED, 0, P.Die) == IDLE
  {
    assert map[id := Lease(NewRow(0), 0)] - {id} == map[];
    assert [id][1..] == [];
    assert map[0 := P.Poller([], false)] - {0} == map[];
  }

  function Publish(op: P.Op): Step {
    OutboxStep(0, op)
  }

  function Project(op: P.Op): Step {
    ProjectionStep(0, op)
  }

  lemma PublishEnds(s: State, id: nat)
    requires s.outbox == Claimed(id, true) && Sized(s.redis, |s.events|)
    ensures IsRun(s, PollSteps(Publish, id)[2..]) && Reached(s, PollSteps(Publish, id)[2..]) == s.(outbox := IDLE)
  {
    DeskEnds(id);
    OneStep(s.(outbox := DROPPED), Publish(P.Die), [], s.(outbox := IDLE));
    OneStep(s, Publish(P.Drop(true)), [Publish(P.Die)] + [], s.(outbox := DROPPED));
    assert PollSteps(Publish, id)[2..] == [Publish(P.Drop(true))] + ([Publish(P.Die)] + []);
  }

  lemma PublishRuns(s: State, id: nat)
    requires s.outbox == OneRow(id) && Sized(s.redis, |s.events|)
    ensures IsRun(s, PollSteps(Publish, id))
    ensures Reached(s, PollSteps(Publish, id)) == s.(outbox := IDLE, queue := s.queue + multiset{id})
  {
    DeskStarts(id);
    var sent := s.(outbox := Claimed(id, true), queue := s.queue + multiset{id});
    PublishEnds(sent, id);
    OneStep(s.(outbox := Claimed(id, false)), Publish(P.Send), PollSteps(Publish, id)[2..], sent);
    OneStep(s, Publish(P.Claim([id], 0, 30)), [Publish(P.Send)] + PollSteps(Publish, id)[2..],
            s.(outbox := Claimed(id, false)));
    assert PollSteps(Publish, id) == [Publish(P.Claim([id], 0, 30))] + ([Publish(P.Send)] + PollSteps(Publish, id)[2..]);
  }

  lemma ProjectEnds(s: State, id: nat)
    requires s.projections == Claimed(id, true) && Sized(s.redis, |s.events|)
    ensures IsRun(s, PollSteps(Project, id)[2..]) && Reached(s, PollSteps(Project, id)[2..]) == s.(projections := IDLE)
  {
    DeskEnds(id);
    OneStep(s.(projections := DROPPED), Project(P.Die), [], s.(projections := IDLE));
    OneStep(s, Project(P.Drop(true)), [Project(P.Die)] + [], s.(projections := DROPPED));
    assert PollSteps(Project, id)[2..] == [Project(P.Drop(true))] + ([Project(P.Die)] + []);
  }

  lemma ProjectRuns(s: State, id: nat)
    requires s.projections == OneRow(id) && Sized(s.redis, |s.events|)
    ensures IsRun(s, PollSteps(Project, id))
    ensures Reached(s, PollSteps(Project, id)) == s.(projections := IDLE, redis := RecordEvent(s.events, s.redis, id))
  {
    DeskStarts(id);
    var sent := s.(projections := Claimed(id, true), redis := RecordEvent(s.events, s.redis, id));
    ProjectEnds(sent, id);
    OneStep(s.(projections := Claimed(id, false)), Project(P.Send), PollSteps(Project, id)[2..], sent);
    OneStep(s, Project(P.Claim([id], 0, 30)), [Project(P.Send)] + PollSteps(Project, id)[2..],
            s.(projections := Claimed(id, false)));
    assert PollSteps(Project, id) == [Project(P.Claim([id], 0, 30))] + ([Project(P.Send)] + PollSteps(Project, id)[2..]);
  }

  lemma PollsNeedNoStamp(s: State, steps: seq<Step>, id: nat)
    requires (steps == PollSteps(Publish, id) || steps == PollSteps(Project, id)) && IsRun(s, steps)
    ensures StampedRun(s, steps)
  {
    NothingToStamp(s, steps);
  }

  // ---------------------------------------------------------------- one event written and published

  function Queued(s: State, e: Event): State {
    Emitted(s, e, 0).(outbox := IDLE, queue := s.queue + multiset{|s.events|})
  }

  function WriteSteps(s: State, e: Event): seq<Step> {
    [Emit(e, 0)] + PollSteps(Publish, |s.events|)
  }

  lemma WriteRuns(s: State, e: Event)
    requires Sized(s.redis, |s.events|) && s.outbox == IDLE && e.minute == s.redis.clock / MINUTE
    ensures IsRun(s, WriteSteps(s, e)) && StampedRun(s, WriteSteps(s, e))
    ensures Reached(s, WriteSteps(s, e)) == Queued(s, e)
  {
    var id := |s.events|;
    PublishRuns(Emitted(s, e, 0), id);
    PollsNeedNoStamp(Emitted(s, e, 0), PollSteps(Publish, id), id);
    OneStep(s, Emit(e, 0), PollSteps(Publish, id), Emitted(s, e, 0));
    assert WriteSteps(s, e)[0] == Emit(e, 0) && WriteSteps(s, e)[1..] == PollSteps(Publish, id);
  }

  // ---------------------------------------------------------------- one event delivered, and then a pause

  function DeliverSteps(s: State, id: nat, fate: Fate, until: int): seq<Step> {
    StepsOf(s, 0, id, 0, fate) + ([Tick(until)] + [])
  }

  lemma DeliverRuns(s: State, id: nat, fate: Fate, until: int, s': State)
    requires Sized(s.redis, |s.events|) && s.consumers == map[] && id in s.queue
    requires Handled(s, id, 0, fate).redis.clock <= until && Sized(Handled(s, id, 0, fate).redis, |s.events|)
    requires s' == Handled(s, id, 0, fate).(redis := Ticked(s.events, Handled(s, id, 0, fate).redis, until))
    ensures IsRun(s, DeliverSteps(s, id, fate, until)) && StampedRun(s, DeliverSteps(s, id, fate, until))
    ensures Reached(s, DeliverSteps(s, id, fate, until)) == s'
  {
    DeliveryIsHandle(s, 0, id, 0, fate);
    OneStep(Handled(s, id, 0, fate), Tick(until), [], s');
    RunThen(s, StepsOf(s, 0, id, 0, fate), [Tick(until)] + []);
    DeliveryEmitsNothing(s, id, fate, until);
    NothingToStamp(s, DeliverSteps(s, id, fate, until));
  }

  lemma DeliveryEmitsNothing(s: State, id: nat, fate: Fate, until: int)
    ensures EmitsNothing(DeliverSteps(s, id, fate, until))
  {
    assert EmitsNothing(StepsOf(s, 0, id, 0, fate));
  }

  // ---------------------------------------------------------------- the run

  const FIRST: Event := Event(1, 3, 0)
  const SECOND: Event := Event(2, 3, 0)

  const ONE_QUEUED: State := State([FIRST], IDLE, multiset{0}, multiset{}, map[], {}, IDLE,
                                   EMPTY_REDIS.(hits := [0], expired := [0], inBucket := [0]))
  const BOTH_QUEUED: State := State([FIRST, SECOND], IDLE, multiset{0, 1}, multiset{}, map[], {}, IDLE,
                                    EMPTY_REDIS.(hits := [0, 0], expired := [0, 0], inBucket := [0, 0]))
  const UNSURE: State := State([FIRST, SECOND], IDLE, multiset{1}, multiset{}, map[], {0}, OneRow(0),
                               Redis(0, map[0 := 10800], map[(0, 1) := 3], map[0 := 7200], {0}, [1, 0], [0, 0], [1, 0],
                                     map[0 := 0], {}))
  const LATER: State := UNSURE.(redis := UNSURE.redis.(clock := 4000))
  const REFRESHED: State := State([FIRST, SECOND], IDLE, multiset{}, multiset{}, map[], {0, 1}, OneRow(0),
                                  Redis(4000, map[0 := 10800, 1 := 14800], map[(0, 1) := 3, (0, 2) := 3],
                                        map[0 := 11200],
                                        {0, 1}, [1, 1], [0, 0], [1, 1], map[0 := 0], {}))
  const UNGUARDED: State := REFRESHED.(redis := REFRESHED.redis.(clock := 10800, keys := map[1 := 14800], expired := [1, 0]))
  const TWICE: State := UNGUARDED.(projections := IDLE,
                                   redis := Redis(10800, map[1 := 14800, 0 := 21600], map[(0, 1) := 6, (0, 2) := 3],
                                                  map[0 := 18000], {0, 1}, [2, 1], [1, 0], [2, 1], map[0 := 0], {}))

  function Writing(): seq<Step> {
    WriteSteps(EMPTY, FIRST) + WriteSteps(ONE_QUEUED, SECOND)
  }

  function Delivering(): seq<Step> {
    DeliverSteps(BOTH_QUEUED, 0, Failed(true), 4000) + DeliverSteps(LATER, 1, Answered(true), 10800)
  }

  function LateRun(): seq<Step> {
    Writing() + (Delivering() + PollSteps(Project, 0))
  }

  lemma BothAreQueued()
    ensures Queued(EMPTY, FIRST) == ONE_QUEUED && Queued(ONE_QUEUED, SECOND) == BOTH_QUEUED
  {}

  lemma WritingRuns()
    ensures IsRun(EMPTY, Writing()) && StampedRun(EMPTY, Writing()) && Reached(EMPTY, Writing()) == BOTH_QUEUED
  {
    WriteRuns(EMPTY, FIRST);
    WriteRuns(ONE_QUEUED, SECOND);
    BothAreQueued();
    RunThen(EMPTY, WriteSteps(EMPTY, FIRST), WriteSteps(ONE_QUEUED, SECOND));
    StampedThen(EMPTY, WriteSteps(EMPTY, FIRST), WriteSteps(ONE_QUEUED, SECOND));
  }

  lemma FirstRecord()
    ensures RecordEvent(BOTH_QUEUED.events, BOTH_QUEUED.redis, 0) == UNSURE.redis
  {}

  lemma FirstDelivered()
    ensures Handled(BOTH_QUEUED, 0, 0, Failed(true)) == UNSURE
  {
    FirstRecord();
  }

  lemma FirstWait()
    ensures Ticked(UNSURE.events, UNSURE.redis, 4000) == LATER.redis
  {
    assert KeysDue(UNSURE.redis, 4000) == {} && BucketsDue(UNSURE.redis, 4000) == {};
  }

  lemma SecondRecord()
    ensures RecordEvent(LATER.events, LATER.redis, 1) == REFRESHED.redis
  {}

  lemma SecondDelivered()
    ensures Handled(LATER, 1, 0, Answered(true)) == REFRESHED
  {
    SecondRecord();
    assert OneRow(0).rows - {1} == OneRow(0).rows;
  }

  lemma SecondWait()
    ensures Ticked(REFRESHED.events, REFRESHED.redis, 10800) == UNGUARDED.redis
  {
    assert KeysDue(REFRESHED.redis, 10800) == {0} && BucketsDue(REFRESHED.redis, 10800) == {};
  }

  lemma DeliveringRuns()
    ensures IsRun(BOTH_QUEUED, Delivering()) && StampedRun(BOTH_QUEUED, Delivering())
    ensures Reached(BOTH_QUEUED, Delivering()) == UNGUARDED
  {
    FirstDelivered();
    FirstWait();
    DeliverRuns(BOTH_QUEUED, 0, Failed(true), 4000, LATER);
    SecondDelivered();
    SecondWait();
    DeliverRuns(LATER, 1, Answered(true), 10800, UNGUARDED);
    RunThen(BOTH_QUEUED, DeliverSteps(BOTH_QUEUED, 0, Failed(true), 4000),
            DeliverSteps(LATER, 1, Answered(true), 10800));
    StampedThen(BOTH_QUEUED, DeliverSteps(BOTH_QUEUED, 0, Failed(true), 4000),
                DeliverSteps(LATER, 1, Answered(true), 10800));
  }

  lemma Recount()
    ensures RecordEvent(UNGUARDED.events, UNGUARDED.redis, 0) == TWICE.redis
  {}

  lemma ReplayRuns()
    ensures IsRun(UNGUARDED, PollSteps(Project, 0)) && StampedRun(UNGUARDED, PollSteps(Project, 0))
    ensures Reached(UNGUARDED, PollSteps(Project, 0)) == TWICE
  {
    ProjectRuns(UNGUARDED, 0);
    Recount();
    PollsNeedNoStamp(UNGUARDED, PollSteps(Project, 0), 0);
  }

  lemma LateRunRuns()
    ensures IsRun(EMPTY, LateRun()) && StampedRun(EMPTY, LateRun()) && Reached(EMPTY, LateRun()) == TWICE
  {
    WritingRuns();
    DeliveringRuns();
    ReplayRuns();
    RunThen(BOTH_QUEUED, Delivering(), PollSteps(Project, 0));
    StampedThen(BOTH_QUEUED, Delivering(), PollSteps(Project, 0));
    RunThen(EMPTY, Writing(), Delivering() + PollSteps(Project, 0));
    StampedThen(EMPTY, Writing(), Delivering() + PollSteps(Project, 0));
  }

  // Every event carries the minute in which it was written, everything drains and no bucket ever expired, yet the first
  // event counts twice: the bucket was written for longer than an hour, and a key ran out while its row was still
  // there.
  lemma LateReplayCountsTwice()
    ensures IsRun(EMPTY, LateRun()) && StampedRun(EMPTY, LateRun())
    ensures var s := Reached(EMPTY, LateRun());
            && Drained(s) && s.redis.gone == {} && !Brief(s.redis, 0)
            && SumOfDeltas(s.events, 0, 1) == 3 && Score(s.redis, 0, 1) == 6
  {
    LateRunRuns();
    assert [FIRST, SECOND][..1] == [FIRST] && [FIRST][..0] == [];
    assert SumOfDeltas([FIRST], 0, 1) == 3;
  }
}
