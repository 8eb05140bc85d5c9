/**
 What Redis holds at any moment: scores are the deltas of the events whose script won, each as often as it won since
 the bucket last expired; and a bucket written for no longer than the extra life of an event key counts nothing twice.
*/
module PipelineBooks {
  import opened Wrappers
  import opened Sums
  import P = Pollers
  import opened Pipeline

  // Deltas of the bucket's events, each as often as `counts` says.
  ghost function Total(events: seq<Event>, counts: seq<nat>, minute: int, video: nat): int
    requires |counts| == |events|
  {
    if events == [] then 0
    else
      var n := |events| - 1;
      var e := events[n];
      Total(events[..n], counts[..n], minute, video)
      + if e.minute == minute && e.video == video then Times(counts[n], e.delta) else 0
  }

  ghost predicate Scored(events: seq<Event>, r: Redis) {
    Sized(r, |events|) && forall minute, video :: Score(r, minute, video) == Total(events, r.inBucket, minute, video)
  }

  // SET NX wins once per lifetime of the key; as long as a bucket never expired it holds every win.
  predicate Account(e: Event, r: Redis, id: nat)
    requires id < |r.hits| && id < |r.expired| && id < |r.inBucket|
  {
    && r.hits[id] == r.expired[id] + (if id in r.keys then 1 else 0)
    && (r.hits[id] > 0 <==> id in r.applied && e.delta != 0)
    && r.inBucket[id] <= r.hits[id]
    && (e.minute !in r.gone ==> r.inBucket[id] == r.hits[id])
  }

  ghost predicate Accounted(events: seq<Event>, r: Redis) {
    && Sized(r, |events|)
    && (forall id :: id in r.keys ==> id < |events|)
    && (forall id :: id in r.applied ==> id < |events|)
    && (forall id :: 0 <= id < |events| ==> Account(events[id], r, id))
  }

  // The last write of the bucket came at most as long after its first as an event key outlives a bucket.
  predicate Brief(r: Redis, minute: int) {
    minute in r.deadlines && minute in r.firstWrite && r.deadlines[minute] <= r.firstWrite[minute] + EVENT_TTL
  }

  predicate CountedOnce(r: Redis, id: nat, minute: int)
    requires id < |r.inBucket| && minute in r.firstWrite
  {
    && r.inBucket[id] <= 1
    && (r.inBucket[id] == 1 ==> id in r.keys && r.keys[id] >= r.firstWrite[minute] + EVENT_TTL)
  }

  ghost predicate Dated(events: seq<Event>, r: Redis) {
    && Sized(r, |events|)
    && r.firstWrite.Keys == r.deadlines.Keys
    && (forall m :: m in r.deadlines ==> r.firstWrite[m] <= r.clock && r.deadlines[m] <= r.clock + BUCKET_TTL)
    && (forall id :: 0 <= id < |events| && r.inBucket[id] > 0 ==> events[id].minute in r.deadlines)
    && (forall id :: 0 <= id < |events| && Brief(r, events[id].minute) ==> CountedOnce(r, id, events[id].minute))
  }

  ghost predicate Books(events: seq<Event>, r: Redis) {
    Accounted(events, r) && Dated(events, r) && Scored(events, r)
  }

  // ---------------------------------------------------------------- sums

  lemma {:induction false} OneMoreHit(events: seq<Event>, counts: seq<nat>, id: nat, minute: int, video: nat)
    requires |counts| == |events| && id < |events|
    ensures var e := events[id];
            Total(events, counts[id := counts[id] + 1], minute, video)
              == Total(events, counts, minute, video) + if e.minute == minute && e.video == video then e.delta else 0
  {
    var n := |events| - 1;
    var more := counts[id := counts[id] + 1];
    if id == n {
      assert more[..n] == counts[..n];
    } else {
      assert more[..n] == counts[..n][id := counts[..n][id] + 1];
      OneMoreHit(events[..n], counts[..n], id, minute, video);
      assert more[n] == counts[n];
    }
  }

  lemma OneMoreEvent(events: seq<Event>, counts: seq<nat>, e: Event, minute: int, video: nat)
    requires |counts| == |events|
    ensures Total(events + [e], counts + [0], minute, video) == Total(events, counts, minute, video)
  {
    assert (events + [e])[..|events|] == events && (counts + [0])[..|counts|] == counts;
  }

  lemma {:induction false} ForgottenMinutes(events: seq<Event>, counts: seq<nat>, gone: set<int>, minute: int,
                                            video: nat)
    requires |counts| == |events|
    ensures Total(events, Forget(events, counts, gone), minute, video)
              == if minute in gone then 0 else Total(events, counts, minute, video)
  {
    if events != [] {
      var n := |events| - 1;
      var kept := Forget(events, counts, gone);
      assert kept[..n] == Forget(events[..n], counts[..n], gone);
      ForgottenMinutes(events[..n], counts[..n], gone, minute, video);
    }
  }

  // ---------------------------------------------------------------- the script

  lemma RecordIsScored(events: seq<Event>, r: Redis, id: nat)
    requires Scored(events, r)
    ensures Scored(events, RecordEvent(events, r, id))
  {
    var r' := RecordEvent(events, r, id);
    forall minute, video ensures Score(r', minute, video) == Total(events, r'.inBucket, minute, video) {
      assert Score(r, minute, video) == Total(events, r.inBucket, minute, video);
      if id < |events| {
        OneMoreHit(events, r.inBucket, id, minute, video);
      }
    }
  }

  lemma RecordKeepsAccount(events: seq<Event>, r: Redis, id: nat, j: nat)
    requires Sized(r, |events|) && j < |events| && Account(events[j], r, j)
    ensures Account(events[j], RecordEvent(events, r, id), j)
  {}

  lemma RecordIsAccounted(events: seq<Event>, r: Redis, id: nat)
    requires Accounted(events, r)
    ensures Accounted(events, RecordEvent(events, r, id))
  {
    var r' := RecordEvent(events, r, id);
    forall j | 0 <= j < |events| ensures Account(events[j], r', j) {
      RecordKeepsAccount(events, r, id, j);
    }
  }

  lemma RecordKeepsCount(events: seq<Event>, r: Redis, id: nat, j: nat)
    requires Dated(events, r) && j < |events| && Brief(RecordEvent(events, r, id), events[j].minute)
    ensures CountedOnce(RecordEvent(events, r, id), j, events[j].minute)
  {
    var minute := events[j].minute;
    if minute in r.deadlines {
      assert Brief(r, minute);
    } else {
      assert r.inBucket[j] == 0;
    }
  }

  lemma RecordIsDated(events: seq<Event>, r: Redis, id: nat)
    requires Dated(events, r)
    ensures Dated(events, RecordEvent(events, r, id))
  {
    var r' := RecordEvent(events, r, id);
    forall j | 0 <= j < |events| && Brief(r', events[j].minute) ensures CountedOnce(r', j, events[j].minute) {
      RecordKeepsCount(events, r, id, j);
    }
  }

  // ---------------------------------------------------------------- time

  lemma TickIsScored(events: seq<Event>, r: Redis, to: int)
    requires Scored(events, r)
    ensures Scored(events, Ticked(events, r, to))
  {
    var r' := Ticked(events, r, to);
    forall minute, video ensures Score(r', minute, video) == Total(events, r'.inBucket, minute, video) {
      assert Score(r, minute, video) == Total(events, r.inBucket, minute, video);
      ForgottenMinutes(events, r.inBucket, BucketsDue(r, to), minute, video);
    }
  }

  lemma TickIsAccounted(events: seq<Event>, r: Redis, to: int)
    requires Accounted(events, r)
    ensures Accounted(events, Ticked(events, r, to))
  {
    forall j | 0 <= j < |events| ensures Account(events[j], Ticked(events, r, to), j) {
      assert Account(events[j], r, j);
    }
  }

  // A brief bucket is gone by the time one of its keys is.
  lemma TickIsDated(events: seq<Event>, r: Redis, to: int)
    requires Dated(events, r) && r.clock <= to
    ensures Dated(events, Ticked(events, r, to))
  {
    var r' := Ticked(events, r, to);
    forall j | 0 <= j < |events| && Brief(r', events[j].minute) ensures CountedOnce(r', j, events[j].minute) {
      assert Brief(r, events[j].minute);
    }
  }

  // ---------------------------------------------------------------- every step

  // The event whose script ran in this step.
  function Recording(s: State, step: Step): Option<nat>
    requires Enabled(s, step)
  {
    match step
    case WorkerStep(c, Record) => Some(s.consumers[c].event)
    case WorkerStep(c, RecordFails(landed)) => if landed then Some(s.consumers[c].event) else None
    case ProjectionStep(p, op) => P.Sent(s.projections, p, op)
    case _ => None
  }

  // Its script writes: the key was free.
  predicate Wins(s: State, step: Step, id: nat)
    requires Enabled(s, step)
  {
    Recording(s, step) == Some(id) && id < |s.events| && s.events[id].delta != 0 && id !in s.redis.keys
  }

  lemma RedisMoves(s: State, step: Step)
    requires Enabled(s, step) && !step.Emit? && !step.Tick?
    ensures var s' := Apply(s, step);
            && s'.events == s.events
            && s'.redis == match Recording(s, step)
                           case Some(id) => RecordEvent(s.events, s.redis, id)
                           case None => s.redis
  {}

  lemma EmitKeepsBooks(s: State, event: Event, now: int)
    requires Books(s.events, s.redis)
    ensures Books(Emitted(s, event, now).events, Emitted(s, event, now).redis)
  {
    var s' := Emitted(s, event, now);
    forall minute, video ensures Score(s'.redis, minute, video) == Total(s'.events, s'.redis.inBucket, minute, video) {
      assert Score(s.redis, minute, video) == Total(s.events, s.redis.inBucket, minute, video);
      OneMoreEvent(s.events, s.redis.inBucket, event, minute, video);
    }
    forall j | 0 <= j < |s'.events| ensures Account(s'.events[j], s'.redis, j) {
      assert j < |s.events| ==> Account(s.events[j], s.redis, j);
    }
    forall j | 0 <= j < |s'.events| && Brief(s'.redis, s'.events[j].minute)
      ensures CountedOnce(s'.redis, j, s'.events[j].minute) {
      if j < |s.events| {
        assert Brief(s.redis, s.events[j].minute);
      }
    }
  }

  lemma StepKeepsBooks(s: State, step: Step)
    requires Enabled(s, step) && Books(s.events, s.redis)
    ensures Books(Apply(s, step).events, Apply(s, step).redis)
  {
    if step.Emit? {
      EmitKeepsBooks(s, step.event, step.now);
    } else if step.Tick? {
      TickIsScored(s.events, s.redis, step.to);
      TickIsAccounted(s.events, s.redis, step.to);
      TickIsDated(s.events, s.redis, step.to);
    } else {
      RedisMoves(s, step);
      if Recording(s, step).Some? {
        var id := Recording(s, step).value;
        RecordIsScored(s.events, s.redis, id);
        RecordIsAccounted(s.events, s.redis, id);
        RecordIsDated(s.events, s.redis, id);
      }
    }
  }
}
