/**
 The popularity consumer and its Redis side as the program runs them (worker/popularity_worker.go Handle,
 popularity/service.go RecordEvent, mq/processed_message.go MarkProcessed, video/repo.go AdjustCounters), tied to the
 steps of the pipeline.
*/
module PopularityWorker {
  import opened LeaseTable
  import opened Pipeline
  import opened PipelineSafety

  class Service {
    var clock: int
    var keys: map<nat, int>
    var buckets: map<(int, nat), int>
    var deadlines: map<int, int>

    constructor (now: int)
      ensures clock == now && keys == map[] && buckets == map[] && deadlines == map[]
    {
      clock := now;
      keys, buckets, deadlines := map[], map[], map[];
    }

    ghost predicate Shows(r: Redis)
      reads this
    {
      r.clock == clock && r.keys == keys && r.buckets == buckets && r.deadlines == deadlines
    }

    // The Lua script: SET NX EX, then ZINCRBY and EXPIRE.
    method RecordEvent(events: seq<Event>, id: nat)
      requires id < |events|
      modifies this
      ensures forall r :: old(Shows(r)) && Sized(r, |events|) ==> Shows(Pipeline.RecordEvent(events, r, id))
    {
      var e := events[id];
      if e.delta == 0 {
        return;
      }
      if id in keys {
        return;
      }
      keys := keys[id := clock + EVENT_TTL];
      var score := if (e.minute, e.video) in buckets then buckets[(e.minute, e.video)] else 0;
      buckets := buckets[(e.minute, e.video) := score + e.delta];
      deadlines := deadlines[e.minute := clock + BUCKET_TTL];
    }
  }

  // What the outside world did to one delivery: the transaction aborted (a commit may have landed all the same); Redis
  // failed or was missing (the script may have run all the same); or Redis answered and the final delete worked or not.
  datatype Fate = Aborted(landed: bool) | Failed(ran: bool) | Answered(dropped: bool)

  // The worker's transaction took effect.
  predicate Takes(events: seq<Event>, id: nat, fate: Fate) {
    Readable(events, id) && (fate.Aborted? ==> fate.landed)
  }

  predicate First(events: seq<Event>, processed: set<nat>, id: nat, fate: Fate) {
    Takes(events, id, fate) && id !in processed
  }

  // The projection rows after one delivery.
  function RowsAfter(events: seq<Event>, processed: set<nat>, rows: map<nat, Row>, id: nat, now: int, fate: Fate)
    : map<nat, Row>
  {
    if !First(events, processed, id, fate) then rows
    else if fate == Answered(true) then rows - {id}
    else rows[id := NewRow(now)]
  }

  function RedisAfter(events: seq<Event>, processed: set<nat>, r: Redis, id: nat, fate: Fate): Redis
    requires Sized(r, |events|)
  {
    if First(events, processed, id, fate) && (fate.Answered? || fate == Failed(true)) then RecordEvent(events, r, id) else r
  }

  function Adjusted(popularity: map<nat, int>, e: Event): map<nat, int> {
    if e.delta == 0 || e.video !in popularity then popularity
    else popularity[e.video := if popularity[e.video] + e.delta < 0 then 0 else popularity[e.video] + e.delta]
  }

  // Above zero the video's counter moves by exactly the event's delta; it stops at zero, and no other counter moves.
  lemma CounterMoves(popularity: map<nat, int>, e: Event)
    ensures var after := Adjusted(popularity, e);
            && after.Keys == popularity.Keys
            && (forall v :: v in popularity && v != e.video ==> after[v] == popularity[v])
            && (e.video in popularity && popularity[e.video] + e.delta >= 0 ==>
                  after[e.video] == popularity[e.video] + e.delta)
            && (e.video in popularity && popularity[e.video] + e.delta < 0 && e.delta != 0 ==> after[e.video] == 0)
  {}

  // The counters after these events, each taken once, in this order.
  function AdjustedBy(popularity: map<nat, int>, events: seq<Event>): map<nat, int> {
    if events == [] then popularity else Adjusted(AdjustedBy(popularity, events[..|events| - 1]), events[|events| - 1])
  }

  function DeltaOf(events: seq<Event>, video: nat): int {
    if events == [] then 0
    else
      DeltaOf(events[..|events| - 1], video)
      + if events[|events| - 1].video == video then events[|events| - 1].delta else 0
  }

  // A counter that never has to stop at zero is its first value plus the sum of its video's deltas.
  lemma {:induction false} CounterIsSum(popularity: map<nat, int>, events: seq<Event>, video: nat)
    requires video in popularity
    requires forall k :: 0 <= k <= |events| ==> popularity[video] + DeltaOf(events[..k], video) >= 0
    ensures video in AdjustedBy(popularity, events)
    ensures AdjustedBy(popularity, events)[video] == popularity[video] + DeltaOf(events, video)
  {
    if events != [] {
      var n := |events| - 1;
      var front := events[..n];
      forall k | 0 <= k <= |front| ensures popularity[video] + DeltaOf(front[..k], video) >= 0 {
        assert front[..k] == events[..k];
      }
      CounterIsSum(popularity, front, video);
      assert events[..|events|] == events;
      CounterMoves(AdjustedBy(popularity, front), events[n]);
    }
  }

  class Worker {
    var processed: set<nat>
    var popularity: map<nat, int>
    var projections: map<nat, Row>
    const service: Service

    constructor (service: Service, popularity: map<nat, int>)
      ensures processed == {} && projections == map[] && this.popularity == popularity && this.service == service
    {
      processed := {};
      this.popularity := popularity;
      projections := map[];
      this.service := service;
    }

    // False for an event that some earlier delivery already took.
    method MarkProcessed(id: nat) returns (isFirst: bool)
      modifies this`processed
      ensures isFirst <==> id !in old(processed)
      ensures processed == old(processed) + {id}
    {
      isFirst := id !in processed;
      processed := processed + {id};
    }

    // An error sends the message to the dead letters. The counter moves at most once per event, and a first delivery
    // leaves the projection row unless Redis answered and the row could be deleted.
    method Handle(events: seq<Event>, id: nat, now: int, fate: Fate) returns (ok: bool)
      requires id < |events|
      modifies this`processed, this`popularity, this`projections, service
      ensures ok <==> Readable(events, id) && !fate.Aborted?
      ensures processed == if Takes(events, id, fate) then old(processed) + {id} else old(processed)
      ensures popularity == if First(events, old(processed), id, fate) then Adjusted(old(popularity), events[id])
                            else old(popularity)
      ensures projections == RowsAfter(events, old(processed), old(projections), id, now, fate)
      ensures forall r :: old(service.Shows(r)) && Sized(r, |events|) ==>
                service.Shows(RedisAfter(events, old(processed), r, id, fate))
    {
      if events[id].video == 0 || fate == Aborted(false) {
        return false;
      }
      var isFirst := MarkProcessed(id);
      if isFirst {
        popularity := Adjusted(popularity, events[id]);
        projections := projections[id := NewRow(now)];
      }
      if fate.Aborted? {
        return false;
      }
      if !isFirst {
        return true;
      }
      if fate != Failed(false) {
        service.RecordEvent(events, id);
      }
      if fate == Answered(true) {
        projections := projections - {id};
      }
      return true;
    }
  }

  // ---------------------------------------------------------------- the steps of one delivery

  // The delivery's steps in the pipeline, when it meets this fate and nobody else moves.
  function StepsAfterCommit(c: nat, fate: Fate): seq<Step>
    requires !fate.Aborted?
  {
    if fate.Answered?
    then [WorkerStep(c, Record)] + ([WorkerStep(c, DropProjection(fate.dropped))] + ([WorkerStep(c, Acknowledge)] + []))
    else [WorkerStep(c, RecordFails(fate.ran))] + ([WorkerStep(c, Acknowledge)] + [])
  }

  function StepsAfterDelivery(s: State, c: nat, id: nat, now: int, fate: Fate): seq<Step> {
    if !Readable(s.events, id) || fate.Aborted? then [WorkerStep(c, Reject(Takes(s.events, id, fate), now))] + []
    else if id in s.processed then [WorkerStep(c, Handle(now))] + ([WorkerStep(c, Acknowledge)] + [])
    else [WorkerStep(c, Handle(now))] + StepsAfterCommit(c, fate)
  }

  function StepsOf(s: State, c: nat, id: nat, now: int, fate: Fate): seq<Step> {
    [WorkerStep(c, Deliver(id))] + StepsAfterDelivery(s, c, id, now, fate)
  }

  // The tables and Redis as Worker.Handle leaves them, and the message off the queue.
  function Handled(s: State, id: nat, now: int, fate: Fate): State
    requires Sized(s.redis, |s.events|)
  {
    var dead := if Readable(s.events, id) && !fate.Aborted? then multiset{} else multiset{id};
    s.(queue := s.queue - multiset{id},
       dead := s.dead + dead,
       processed := if Takes(s.events, id, fate) then s.processed + {id} else s.processed,
       projections := s.projections.(rows := RowsAfter(s.events, s.processed, s.projections.rows, id, now, fate)),
       redis := RedisAfter(s.events, s.processed, s.redis, id, fate))
  }

  lemma RejectedDelivery(s: State, c: nat, id: nat, now: int, fate: Fate)
    requires Sized(s.redis, |s.events|) && c !in s.consumers && (!Readable(s.events, id) || fate.Aborted?)
    ensures var got := s.(consumers := s.consumers[c := Got(id)]);
            && IsRun(got, StepsAfterDelivery(s, c, id, now, fate))
            && Reached(got, StepsAfterDelivery(s, c, id, now, fate)) == Handled(s, id, now, fate)
  {
    var got := s.(consumers := s.consumers[c := Got(id)]);
    var end := Handled(s, id, now, fate);
    assert got.consumers - {c} == s.consumers;
    assert Takes(s.events, id, fate) && id in s.processed ==> s.processed + {id} == s.processed;
    OneStep(got, WorkerStep(c, Reject(Takes(s.events, id, fate), now)), [], end);
  }

  lemma RepeatedDelivery(s: State, c: nat, id: nat, now: int, fate: Fate)
    requires Sized(s.redis, |s.events|) && c !in s.consumers && id in s.processed && Readable(s.events, id)
             && !fate.Aborted?
    ensures var got := s.(consumers := s.consumers[c := Got(id)]);
            && IsRun(got, StepsAfterDelivery(s, c, id, now, fate))
            && Reached(got, StepsAfterDelivery(s, c, id, now, fate)) == Handled(s, id, now, fate)
  {
    var got := s.(consumers := s.consumers[c := Got(id)]);
    var finished := s.(consumers := s.consumers[c := Finished(id)]);
    var end := s.(queue := s.queue - multiset{id});
    assert finished.consumers - {c} == s.consumers;
    assert s.processed + {id} == s.processed;
    OneStep(finished, WorkerStep(c, Acknowledge), [], end);
    OneStep(got, WorkerStep(c, Handle(now)), [WorkerStep(c, Acknowledge)] + [], finished);
  }

  // Handle has returned and the message waits to be acknowledged.
  function Returned(s: State, c: nat, id: nat, now: int, fate: Fate): State
    requires Sized(s.redis, |s.events|)
  {
    Handled(s, id, now, fate).(queue := s.queue, consumers := s.consumers[c := Finished(id)])
  }

  lemma AcknowledgedDelivery(s: State, c: nat, id: nat, now: int, fate: Fate)
    requires Sized(s.redis, |s.events|) && c !in s.consumers && Readable(s.events, id) && !fate.Aborted?
    ensures var rest := [WorkerStep(c, Acknowledge)] + [];
            && IsRun(Returned(s, c, id, now, fate), rest)
            && Reached(Returned(s, c, id, now, fate), rest) == Handled(s, id, now, fate)
  {
    assert s.consumers[c := Finished(id)] - {c} == s.consumers;
    OneStep(Returned(s, c, id, now, fate), WorkerStep(c, Acknowledge), [], Handled(s, id, now, fate));
  }

  lemma AnsweredSteps(s: State, c: nat, id: nat, now: int, fate: Fate, committed: State)
    requires Sized(s.redis, |s.events|) && c !in s.consumers && id !in s.processed && Readable(s.events, id)
             && fate.Answered?
    requires committed == Taken(s, id, now).(consumers := s.consumers[c := Committed(id)])
    ensures IsRun(committed, StepsAfterCommit(c, fate))
    ensures Reached(committed, StepsAfterCommit(c, fate)) == Handled(s, id, now, fate)
  {
    var ack := [WorkerStep(c, Acknowledge)] + [];
    var recorded := committed.(redis := RecordEvent(s.events, s.redis, id),
                               consumers := s.consumers[c := Recorded(id)]);
    assert recorded.consumers[c := Finished(id)] == s.consumers[c := Finished(id)];
    assert s.projections.rows[id := NewRow(now)] - {id} == s.projections.rows - {id};
    AcknowledgedDelivery(s, c, id, now, fate);
    OneStep(recorded, WorkerStep(c, DropProjection(fate.dropped)), ack, Returned(s, c, id, now, fate));
    OneStep(committed, WorkerStep(c, Record), [WorkerStep(c, DropProjection(fate.dropped))] + ack, recorded);
  }

  lemma FailedSteps(s: State, c: nat, id: nat, now: int, fate: Fate, committed: State)
    requires Sized(s.redis, |s.events|) && c !in s.consumers && id !in s.processed && Readable(s.events, id)
             && fate.Failed?
    requires committed == Taken(s, id, now).(consumers := s.consumers[c := Committed(id)])
    ensures IsRun(committed, StepsAfterCommit(c, fate))
    ensures Reached(committed, StepsAfterCommit(c, fate)) == Handled(s, id, now, fate)
  {
    AcknowledgedDelivery(s, c, id, now, fate);
    OneStep(committed, WorkerStep(c, RecordFails(fate.ran)), [WorkerStep(c, Acknowledge)] + [],
            Returned(s, c, id, now, fate));
  }

  lemma FirstDelivery(s: State, c: nat, id: nat, now: int, fate: Fate)
    requires Sized(s.redis, |s.events|) && c !in s.consumers && id !in s.processed && Readable(s.events, id)
             && !fate.Aborted?
    ensures var got := s.(consumers := s.consumers[c := Got(id)]);
            && IsRun(got, StepsAfterDelivery(s, c, id, now, fate))
            && Reached(got, StepsAfterDelivery(s, c, id, now, fate)) == Handled(s, id, now, fate)
  {
    var got := s.(consumers := s.consumers[c := Got(id)]);
    var committed := Taken(s, id, now).(consumers := s.consumers[c := Committed(id)]);
    if fate.Answered? {
      AnsweredSteps(s, c, id, now, fate, committed);
    } else {
      FailedSteps(s, c, id, now, fate, committed);
    }
    OneStep(got, WorkerStep(c, Handle(now)), StepsAfterCommit(c, fate), committed);
  }

  // One delivery in the pipeline does to the tables and to Redis what Worker.Handle promises, and takes the message
  // off the queue, to the dead letters exactly when Handle reports an error.
  lemma DeliveryIsHandle(s: State, c: nat, id: nat, now: int, fate: Fate)
    requires Sized(s.redis, |s.events|) && c !in s.consumers && id in s.queue
    ensures IsRun(s, StepsOf(s, c, id, now, fate))
            && Reached(s, StepsOf(s, c, id, now, fate)) == Handled(s, id, now, fate)
  {
    var got := s.(consumers := s.consumers[c := Got(id)]);
    if !Readable(s.events, id) || fate.Aborted? {
      RejectedDelivery(s, c, id, now, fate);
    } else if id in s.processed {
      RepeatedDelivery(s, c, id, now, fate);
    } else {
      FirstDelivery(s, c, id, now, fate);
    }
    OneStep(s, WorkerStep(c, Deliver(id)), StepsAfterDelivery(s, c, id, now, fate), got);
  }
}
