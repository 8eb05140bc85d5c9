/**
 Time in the popularity pipeline: an event carries the minute in which it was written (mq/message.go NewEnvelope), and only
 its way to Redis takes time. If no script writes later than an hour after its event's minute began, no event ever counts
 twice and the drained buckets are sums.
*/
module PipelineTiming {
  import opened Pipeline
  import opened PipelineBooks
  import opened PipelineSafety
  import opened PipelineScores

  const MINUTE := 60
  const HOUR := EVENT_TTL - BUCKET_TTL

  // An event is stamped with the minute of the clock.
  predicate Stamped(s: State, step: Step) {
    step.Emit? ==> step.event.minute == s.redis.clock / MINUTE
  }

  ghost predicate StampedRun(s: State, steps: seq<Step>)
    requires IsRun(s, steps)
    decreases |steps|
  {
    steps == [] || (Stamped(s, steps[0]) && StampedRun(Apply(s, steps[0]), steps[1..]))
  }

  // The script does not write too late for its bucket.
  ghost predicate Prompt(s: State, step: Step)
    requires Enabled(s, step)
  {
    forall id: nat :: Wins(s, step, id) ==> s.redis.clock <= MINUTE * s.events[id].minute + HOUR
  }

  ghost predicate PromptRun(s: State, steps: seq<Step>)
    requires IsRun(s, steps)
    decreases |steps|
  {
    steps == [] || (Prompt(s, steps[0]) && PromptRun(Apply(s, steps[0]), steps[1..]))
  }

  // ---------------------------------------------------------------- what these runs keep

  predicate WritesBounded(r: Redis, m: int) {
    m in r.deadlines && m in r.firstWrite ==>
      MINUTE * m <= r.firstWrite[m] && r.deadlines[m] <= MINUTE * m + HOUR + BUCKET_TTL
  }

  ghost predicate OnTime(s: State) {
    && Sized(s.redis, |s.events|)
    && (forall id :: 0 <= id < |s.events| ==> MINUTE * s.events[id].minute <= s.redis.clock)
    && (forall m :: m in s.redis.deadlines ==> WritesBounded(s.redis, m))
  }

  lemma StampIsPast(clock: int)
    ensures MINUTE * (clock / MINUTE) <= clock
  {}

  lemma RecordIsOnTime(s: State, id: nat)
    requires OnTime(s)
    requires id < |s.events| && s.events[id].delta != 0 && id !in s.redis.keys ==>
               s.redis.clock <= MINUTE * s.events[id].minute + HOUR
    ensures OnTime(s.(redis := RecordEvent(s.events, s.redis, id)))
  {
    var r' := RecordEvent(s.events, s.redis, id);
    forall m | m in r'.deadlines ensures WritesBounded(r', m) {
      assert m in s.redis.deadlines ==> WritesBounded(s.redis, m);
    }
  }

  lemma TickIsOnTime(s: State, to: int)
    requires OnTime(s) && s.redis.clock <= to
    ensures OnTime(s.(redis := Ticked(s.events, s.redis, to)))
  {
    var r' := Ticked(s.events, s.redis, to);
    forall m | m in r'.deadlines ensures WritesBounded(r', m) {
      assert WritesBounded(s.redis, m);
    }
  }

  lemma EmitIsOnTime(s: State, event: Event, now: int)
    requires OnTime(s) && event.minute == s.redis.clock / MINUTE
    ensures OnTime(Emitted(s, event, now))
  {
    var s' := Emitted(s, event, now);
    StampIsPast(s.redis.clock);
    forall m | m in s'.redis.deadlines ensures WritesBounded(s'.redis, m) {
      assert WritesBounded(s.redis, m);
    }
  }

  lemma OnTimeIsAboutRedis(s: State, s': State)
    requires OnTime(s) && s'.events == s.events && s'.redis == s.redis
    ensures OnTime(s')
  {}

  lemma StepIsOnTime(s: State, step: Step)
    requires OnTime(s) && Enabled(s, step) && Stamped(s, step) && Prompt(s, step)
    ensures OnTime(Apply(s, step))
  {
    if step.Emit? {
      EmitIsOnTime(s, step.event, step.now);
    } else if step.Tick? {
      TickIsOnTime(s, step.to);
    } else {
      RedisMoves(s, step);
      if Recording(s, step).Some? {
        var id := Recording(s, step).value;
        assert id < |s.events| && s.events[id].delta != 0 && id !in s.redis.keys ==> Wins(s, step, id);
        RecordIsOnTime(s, id);
        OnTimeIsAboutRedis(s.(redis := RecordEvent(s.events, s.redis, id)), Apply(s, step));
      } else {
        OnTimeIsAboutRedis(s, Apply(s, step));
      }
    }
  }

  lemma {:induction false} RunIsOnTime(s: State, steps: seq<Step>)
    requires OnTime(s) && IsRun(s, steps) && StampedRun(s, steps) && PromptRun(s, steps)
    ensures OnTime(Reached(s, steps))
    decreases |steps|
  {
    if steps != [] {
      StepIsOnTime(s, steps[0]);
      RunIsOnTime(Apply(s, steps[0]), steps[1..]);
    }
  }

  lemma OnTimeIsBrief(s: State, m: int)
    requires OnTime(s) && Books(s.events, s.redis) && m in s.redis.deadlines
    ensures Brief(s.redis, m)
  {
    assert WritesBounded(s.redis, m);
  }

  // ---------------------------------------------------------------- prompt runs

  // At any moment of such a run, no event is in its bucket twice.
  lemma PromptRunsCountOnce(steps: seq<Step>, id: nat)
    requires IsRun(EMPTY, steps) && StampedRun(EMPTY, steps) && PromptRun(EMPTY, steps)
    requires id < |Reached(EMPTY, steps).events|
    ensures var r := Reached(EMPTY, steps).redis; id < |r.inBucket| && r.inBucket[id] <= 1
  {
    var s := Reached(EMPTY, steps);
    RunKeepsInv(EMPTY, steps);
    RunIsOnTime(EMPTY, steps);
    if s.events[id].minute in s.redis.deadlines {
      OnTimeIsBrief(s, s.events[id].minute);
      assert CountedOnce(s.redis, id, s.events[id].minute);
    }
  }

  // Its drained buckets that never expired are the sums of their events.
  lemma PromptRunsDrainToSums(steps: seq<Step>, minute: int, video: nat)
    requires IsRun(EMPTY, steps) && StampedRun(EMPTY, steps) && PromptRun(EMPTY, steps)
    requires Drained(Reached(EMPTY, steps)) && minute !in Reached(EMPTY, steps).redis.gone
    ensures var s := Reached(EMPTY, steps); Score(s.redis, minute, video) == SumOfDeltas(s.events, minute, video)
  {
    var s := Reached(EMPTY, steps);
    RunKeepsInv(EMPTY, steps);
    RunIsOnTime(EMPTY, steps);
    if minute in s.redis.deadlines {
      OnTimeIsBrief(s, minute);
    }
    BriefBucketIsSum(s, minute, video);
  }

  // ---------------------------------------------------------------- building runs

  lemma {:induction false} StampedThen(s: State, a: seq<Step>, b: seq<Step>)
    requires IsRun(s, a) && IsRun(Reached(s, a), b) && StampedRun(s, a) && StampedRun(Reached(s, a), b)
    ensures IsRun(s, a + b) && StampedRun(s, a + b)
    decreases |a|
  {
    if a == [] {
      assert a + b == b;
    } else {
      assert (a + b)[0] == a[0] && (a + b)[1..] == a[1..] + b;
      StampedThen(Apply(s, a[0]), a[1..], b);
    }
  }

  predicate EmitsNothing(steps: seq<Step>) {
    forall i :: 0 <= i < |steps| ==> !steps[i].Emit?
  }

  lemma {:induction false} NothingToStamp(s: State, steps: seq<Step>)
    requires IsRun(s, steps) && EmitsNothing(steps)
    ensures StampedRun(s, steps)
    decreases |steps|
  {
    if steps != [] {
      NothingToStamp(Apply(s, steps[0]), steps[1..]);
    }
  }
}
