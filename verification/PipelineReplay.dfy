/**
 When the popularity pipeline can still count an event again: exactly as long as a projection row, a poller's batch or
 a consumer that has committed but not recorded holds it. A run in which no key expires before that counts each event
 at most once.
*/
module PipelineReplay {
  import opened Wrappers
  import opened LeaseTable
  import P = Pollers
  import opened Pipeline
  import opened PipelineBooks
  import opened PipelineSafety
  import opened PipelineScores

  ghost predicate AboutToRecord(s: State, id: nat) {
    exists c :: c in s.consumers && s.consumers[c] == Committed(id)
  }

  ghost predicate Replayable(s: State, id: nat) {
    P.MaySend(s.projections, id) || AboutToRecord(s, id)
  }

  // ---------------------------------------------------------------- replays end

  lemma RecordingIsReplayable(s: State, step: Step)
    requires Enabled(s, step) && Recording(s, step).Some?
    ensures Replayable(s, Recording(s, step).value)
  {
    if step.ProjectionStep? {
      P.SentMayBeSent(s.projections, step.poller, step.op);
    } else {
      assert s.consumers[step.consumer] == Committed(Recording(s, step).value);
    }
  }

  lemma WorkerOpensNoReplay(s: State, c: nat, d: Delivery, id: nat)
    requires CanDeliver(s, c, d) && Sized(s.redis, |s.events|) && id in s.processed && !Replayable(s, id)
    ensures !Replayable(Work(s, c, d), id)
  {
    WorkerWritesNoRow(s, c, d, id);
    var s' := Work(s, c, d);
    forall q | q in s'.consumers ensures s'.consumers[q] != Committed(id) {
      WorkerCommitsNothing(s, c, d, id, q);
    }
  }

  lemma WorkerWritesNoRow(s: State, c: nat, d: Delivery, id: nat)
    requires CanDeliver(s, c, d) && Sized(s.redis, |s.events|) && id in s.processed && id !in s.projections.rows
    ensures id !in Work(s, c, d).projections.rows && Work(s, c, d).projections.pollers == s.projections.pollers
  {
    match d
    case Handle(now) => TakenWritesNoRow(s, s.consumers[c].event, now, id);
    case Reject(_, now) => TakenWritesNoRow(s, s.consumers[c].event, now, id);
    case _ =>
  }

  lemma TakenWritesNoRow(s: State, taken: nat, now: int, id: nat)
    requires id in s.processed && id !in s.projections.rows
    ensures id !in Taken(s, taken, now).projections.rows
            && Taken(s, taken, now).projections.pollers == s.projections.pollers
  {}

  lemma WorkerCommitsNothing(s: State, c: nat, d: Delivery, id: nat, q: nat)
    requires CanDeliver(s, c, d) && Sized(s.redis, |s.events|) && id in s.processed && !AboutToRecord(s, id)
    requires q in Work(s, c, d).consumers
    ensures Work(s, c, d).consumers[q] != Committed(id)
  {
    if q != c {
      assert q in s.consumers && Work(s, c, d).consumers[q] == s.consumers[q];
    }
  }

  // An event the worker has taken, and that nothing holds any more, is never replayed.
  lemma NoReplayStays(s: State, step: Step, id: nat)
    requires Enabled(s, step) && id in s.processed && !Replayable(s, id)
    ensures !Replayable(Apply(s, step), id) && id in Apply(s, step).processed
  {
    match step
    case WorkerStep(c, d) => WorkerOpensNoReplay(s, c, d, id);
    case ProjectionStep(p, op) =>
      P.NoSendStays(s.projections, p, op, id);
      assert Apply(s, step).consumers == s.consumers;
    case _ =>
      assert Apply(s, step).consumers == s.consumers && Apply(s, step).projections == s.projections;
  }

  // ---------------------------------------------------------------- hits

  lemma HitsMove(s: State, step: Step, id: nat)
    requires Enabled(s, step) && id < |s.events|
    ensures var s' := Apply(s, step);
            && |s.events| <= |s'.events| && Sized(s'.redis, |s'.events|) && s'.events[id] == s.events[id]
            && s'.redis.hits[id] == s.redis.hits[id] + (if Wins(s, step, id) then 1 else 0)
            && (Wins(s, step, id) ==> id in s'.redis.keys)
  {
    if !step.Emit? && !step.Tick? {
      RedisMoves(s, step);
    }
  }

  lemma {:induction false} UnreplayableKeepsHits(s: State, steps: seq<Step>, id: nat)
    requires IsRun(s, steps) && id < |s.events| && Sized(s.redis, |s.events|) && id in s.processed && !Replayable(s, id)
    ensures var s' := Reached(s, steps); id < |s'.redis.hits| && s'.redis.hits[id] == s.redis.hits[id]
    decreases |steps|
  {
    if steps != [] {
      HitsMove(s, steps[0], id);
      if Recording(s, steps[0]).Some? {
        RecordingIsReplayable(s, steps[0]);
      }
      NoReplayStays(s, steps[0], id);
      UnreplayableKeepsHits(Apply(s, steps[0]), steps[1..], id);
    }
  }

  // ---------------------------------------------------------------- replays happen

  ghost predicate CountsAgain(s: State, steps: seq<Step>, id: nat) {
    && IsRun(s, steps)
    && id < |s.redis.hits| && id < |Reached(s, steps).redis.hits|
    && Reached(s, steps).redis.hits[id] > s.redis.hits[id]
  }

  // Nothing keeps the script from counting the event.
  predicate Open(s: State, id: nat) {
    Sized(s.redis, |s.events|) && id < |s.events| && s.events[id].delta != 0 && id !in s.redis.keys
  }

  lemma AndThen(s: State, step: Step, rest: seq<Step>, id: nat)
    requires Enabled(s, step) && id < |s.redis.hits| && id < |Apply(s, step).redis.hits|
    requires s.redis.hits[id] <= Apply(s, step).redis.hits[id] && CountsAgain(Apply(s, step), rest, id)
    ensures CountsAgain(s, [step] + rest, id)
  {
    OneStep(s, step, rest, Apply(s, step));
  }

  lemma WinningCounts(s: State, step: Step, id: nat)
    requires Enabled(s, step) && Wins(s, step, id)
    ensures CountsAgain(s, [step] + [], id)
  {
    HitsMove(s, step, id);
    OneStep(s, step, [], Apply(s, step));
  }

  // A poller gets to the event's place in its batch: it sends, or fails on the others without anything landing.
  lemma {:induction false} BatchCounts(s: State, p: nat, id: nat) returns (steps: seq<Step>)
    requires Open(s, id) && p in s.projections.pollers && !s.projections.pollers[p].done
             && id in s.projections.pollers[p].batch
    ensures CountsAgain(s, steps, id)
    decreases |s.projections.pollers[p].batch|
  {
    var batch := s.projections.pollers[p].batch;
    if batch[0] == id {
      var send := ProjectionStep(p, P.Send);
      steps := [send] + [];
      WinningCounts(s, send, id);
    } else {
      var skip := ProjectionStep(p, P.SendFails(false, None));
      var rest := BatchCounts(Apply(s, skip), p, id);
      steps := [skip] + rest;
      AndThen(s, skip, rest, id);
    }
  }

  lemma UnsentCounts(s: State, p: nat, id: nat) returns (steps: seq<Step>)
    requires Open(s, id) && p in s.projections.pollers && id in P.Unsent(s.projections.pollers[p])
    ensures CountsAgain(s, steps, id)
  {
    if s.projections.pollers[p].done {
      var skip := ProjectionStep(p, P.Drop(false));
      var rest := BatchCounts(Apply(s, skip), p, id);
      steps := [skip] + rest;
      AndThen(s, skip, rest, id);
    } else {
      steps := BatchCounts(s, p, id);
    }
  }

  lemma {:induction false} Unused(ids: set<nat>) returns (p: nat)
    ensures forall id :: id in ids ==> id < p
  {
    if ids == {} {
      p := 0;
    } else {
      var id :| id in ids;
      var q := Unused(ids - {id});
      p := if q <= id then id + 1 else q;
      assert forall x :: x in ids ==> x == id || x in ids - {id};
    }
  }

  // A new poller claims the row once its lease has run out.
  lemma RowCounts(s: State, id: nat) returns (steps: seq<Step>)
    requires Open(s, id) && id in s.projections.rows && P.RowOk(s.projections.rows[id])
    ensures CountsAgain(s, steps, id)
  {
    var p := Unused(s.projections.pollers.Keys);
    var row := s.projections.rows[id];
    var now := if row.status == Pending then row.nextAttempt else row.lockedAt.value;
    var claim := ProjectionStep(p, P.Claim([id], now, 0));
    AllStillDue(s.projections.rows, [id], now, 0);
    var rest := BatchCounts(Apply(s, claim), p, id);
    steps := [claim] + rest;
    AndThen(s, claim, rest, id);
  }

  lemma OpenReplayCounts(s: State, id: nat) returns (steps: seq<Step>)
    requires Inv(s) && Open(s, id) && Replayable(s, id)
    ensures CountsAgain(s, steps, id)
  {
    if id in s.projections.rows {
      steps := RowCounts(s, id);
    } else if AboutToRecord(s, id) {
      var c :| c in s.consumers && s.consumers[c] == Committed(id);
      var record := WorkerStep(c, Record);
      steps := [record] + [];
      WinningCounts(s, record, id);
    } else {
      var p :| p in s.projections.pollers && id in P.Unsent(s.projections.pollers[p]);
      steps := UnsentCounts(s, p, id);
    }
  }

  lemma TickKeepsReplays(s: State, to: int, id: nat)
    requires Enabled(s, Tick(to)) && Replayable(s, id)
    ensures Replayable(Apply(s, Tick(to)), id)
  {
    var s' := Apply(s, Tick(to));
    assert s'.projections == s.projections && s'.consumers == s.consumers;
  }

  // With the key still alive, wait for its deadline first.
  lemma ReplayCounts(s: State, id: nat) returns (steps: seq<Step>)
    requires Inv(s) && id < |s.events| && s.events[id].delta != 0 && Replayable(s, id)
    ensures CountsAgain(s, steps, id)
  {
    if id in s.redis.keys {
      var to := if s.redis.keys[id] < s.redis.clock then s.redis.clock else s.redis.keys[id];
      var wait := Tick(to);
      TickKeepsReplays(s, to, id);
      StepKeepsInv(s, wait);
      var rest := OpenReplayCounts(Apply(s, wait), id);
      steps := [wait] + rest;
      AndThen(s, wait, rest, id);
    } else {
      steps := OpenReplayCounts(s, id);
    }
  }

  // In every reachable state, an event that has counted can count again, now or later, if and only if something still
  // holds it for replay.
  lemma CountsAgainIffReplayable(before: seq<Step>, id: nat)
    requires IsRun(EMPTY, before) && id < |Reached(EMPTY, before).redis.hits|
             && Reached(EMPTY, before).redis.hits[id] > 0
    ensures var s := Reached(EMPTY, before); (exists steps :: CountsAgain(s, steps, id)) <==> Replayable(s, id)
  {
    var s := Reached(EMPTY, before);
    RunKeepsInv(EMPTY, before);
    assert Account(s.events[id], s.redis, id);
    if Replayable(s, id) {
      var steps := ReplayCounts(s, id);
    } else {
      forall steps | IsRun(s, steps) ensures !CountsAgain(s, steps, id) {
        UnreplayableKeepsHits(s, steps, id);
      }
    }
  }

  // ---------------------------------------------------------------- keys that live long enough

  // Time passes only as long as every key that runs out belongs to an event nothing can replay.
  ghost predicate Careful(s: State, step: Step) {
    step.Tick? ==> forall id :: id in KeysDue(s.redis, step.to) ==> !Replayable(s, id)
  }

  ghost predicate CarefulRun(s: State, steps: seq<Step>)
    requires IsRun(s, steps)
    decreases |steps|
  {
    steps == [] || (Careful(s, steps[0]) && CarefulRun(Apply(s, steps[0]), steps[1..]))
  }

  // Counted at most once, and once counted guarded by its key or out of reach of every replay.
  ghost predicate Settled(s: State, id: nat) {
    && id < |s.redis.hits|
    && (s.redis.hits[id] == 0 || (s.redis.hits[id] == 1 && (id in s.redis.keys || !Replayable(s, id))))
  }

  lemma CarefulStepSettles(s: State, step: Step, id: nat)
    requires Inv(s) && Enabled(s, step) && Careful(s, step) && id < |s.events| && Settled(s, id)
    ensures Settled(Apply(s, step), id)
  {
    HitsMove(s, step, id);
    assert Account(s.events[id], s.redis, id);
    if Recording(s, step).Some? {
      RecordingIsReplayable(s, step);
    }
    if s.redis.hits[id] == 1 && !Replayable(s, id) {
      NoReplayStays(s, step, id);
    } else if s.redis.hits[id] == 1 {
      if step.Tick? && id in KeysDue(s.redis, step.to) {
        assert false;
      } else {
        KeysStay(s, step, id);
      }
    }
  }

  lemma KeysStay(s: State, step: Step, id: nat)
    requires Enabled(s, step) && id in s.redis.keys && (step.Tick? ==> id !in KeysDue(s.redis, step.to))
    ensures id in Apply(s, step).redis.keys
  {
    if !step.Emit? && !step.Tick? {
      RedisMoves(s, step);
    }
  }

  lemma {:induction false} CarefulRunSettles(s: State, steps: seq<Step>)
    requires Inv(s) && IsRun(s, steps) && CarefulRun(s, steps)
    requires forall id :: 0 <= id < |s.events| ==> Settled(s, id)
    ensures forall id :: 0 <= id < |Reached(s, steps).events| ==> Settled(Reached(s, steps), id)
    decreases |steps|
  {
    if steps != [] {
      var s' := Apply(s, steps[0]);
      StepKeepsInv(s, steps[0]);
      forall id | 0 <= id < |s'.events| ensures Settled(s', id) {
        if id < |s.events| {
          CarefulStepSettles(s, steps[0], id);
        }
      }
      CarefulRunSettles(s', steps[1..]);
    }
  }

  // In a run in which keys outlive the replays of their events, no event ever counts twice ...
  lemma CarefulRunsCountOnce(steps: seq<Step>, id: nat)
    requires IsRun(EMPTY, steps) && CarefulRun(EMPTY, steps) && id < |Reached(EMPTY, steps).events|
    ensures var s := Reached(EMPTY, steps); id < |s.redis.hits| && s.redis.hits[id] <= 1
  {
    CarefulRunSettles(EMPTY, steps);
    assert Settled(Reached(EMPTY, steps), id);
  }

  // ... and every drained bucket that never expired is the sum of its events, for however long it was written.
  lemma CarefulRunsDrainToSums(steps: seq<Step>, minute: int, video: nat)
    requires IsRun(EMPTY, steps) && CarefulRun(EMPTY, steps)
    requires Drained(Reached(EMPTY, steps)) && minute !in Reached(EMPTY, steps).redis.gone
    ensures var s := Reached(EMPTY, steps); Score(s.redis, minute, video) == SumOfDeltas(s.events, minute, video)
  {
    RunKeepsInv(EMPTY, steps);
    var s := Reached(EMPTY, steps);
    forall i | 0 <= i < |s.events| ensures s.redis.hits[i] <= 1 {
      CarefulRunsCountOnce(steps, i);
    }
    OnceEachIsSum(s, minute, video);
  }
}
