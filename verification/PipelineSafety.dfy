/**
 What every run of the popularity pipeline keeps: no event is ever lost, and a delta enters its bucket once for each
 lifetime of its event key.
*/
module PipelineSafety {
  import P = Pollers
  import opened Pipeline
  import opened PipelineBooks

  // ---------------------------------------------------------------- where an event is

  // Handed to the broker: still queued, dead-lettered, or taken by the worker's transaction.
  predicate Passed(s: State, id: nat) {
    id in s.queue || id in s.dead || id in s.processed
  }

  function PassedIds(s: State): set<nat> {
    set id | 0 <= id < |s.events| && Passed(s, id)
  }

  function Below(n: nat): (ids: set<nat>)
    ensures forall id: nat :: id in ids <==> id < n
  {
    if n == 0 then {} else Below(n - 1) + {n - 1}
  }

  predicate Somewhere(s: State, id: nat) {
    id in s.outbox.rows || id in s.queue || id in s.dead || id in s.projections.rows || id in s.redis.applied
  }

  ghost predicate Numbered(s: State) {
    && (forall id :: id in s.queue ==> id < |s.events|)
    && (forall id :: id in s.processed ==> id < |s.events|)
    && s.redis.applied <= s.processed
  }

  predicate ConsumerOk(s: State, c: Consumer) {
    && c.event < |s.events|
    && (!c.Got? ==> c.event in s.processed)
    && (c.Recorded? ==> c.event in s.redis.applied)
  }

  ghost predicate HandedOn(s: State) {
    && (forall id :: 0 <= id < |s.events| ==> id in s.outbox.rows || Passed(s, id))
    && (forall id :: id in s.processed ==> id in s.projections.rows || id in s.redis.applied)
  }

  ghost predicate Kept(s: State) {
    && Numbered(s)
    && P.DeskOk(s.outbox, Below(|s.events|), PassedIds(s))
    && P.DeskOk(s.projections, s.processed, s.redis.applied)
    && (forall c :: c in s.consumers ==> ConsumerOk(s, s.consumers[c]))
    && HandedOn(s)
  }

  ghost predicate Inv(s: State) {
    Kept(s) && Books(s.events, s.redis)
  }

  lemma RecordApplies(events: seq<Event>, r: Redis, id: nat)
    requires Sized(r, |events|) && id < |events|
    ensures RecordEvent(events, r, id).applied == r.applied + {id}
  {}

  // ---------------------------------------------------------------- nothing is lost

  lemma EmitKeeps(s: State, event: Event, now: int)
    requires Kept(s) && Sized(s.redis, |s.events|)
    ensures Kept(Emitted(s, event, now))
  {
    var s' := Emitted(s, event, now);
    P.MoreGone(s.outbox, Below(|s.events|), PassedIds(s), Below(|s'.events|), PassedIds(s'));
    forall c | c in s'.consumers ensures ConsumerOk(s', s'.consumers[c]) {
      assert ConsumerOk(s, s.consumers[c]);
    }
  }

  lemma OutboxKeeps(s: State, p: nat, op: P.Op)
    requires Kept(s) && P.Can(s.outbox, p, op)
    ensures Kept(Published(s, p, op))
  {
    var s' := Published(s, p, op);
    P.SentIsKnown(s.outbox, p, op, Below(|s.events|), PassedIds(s));
    P.RowsGoWhenSent(s.outbox, p, op, Below(|s.events|), PassedIds(s));
    P.DeskStaysOk(s.outbox, p, op, Below(|s.events|), PassedIds(s));
    P.MoreGone(s'.outbox, Below(|s.events|), PassedIds(s) + P.SentIds(s.outbox, p, op), Below(|s'.events|),
               PassedIds(s'));
    forall c | c in s'.consumers ensures ConsumerOk(s', s'.consumers[c]) {
      assert ConsumerOk(s, s.consumers[c]);
    }
    forall id | 0 <= id < |s'.events| ensures id in s'.outbox.rows || Passed(s', id) {
      assert id in s.outbox.rows || Passed(s, id);
      assert id in PassedIds(s) ==> Passed(s, id);
    }
  }

  lemma ProjectionKeeps(s: State, p: nat, op: P.Op)
    requires Kept(s) && P.Can(s.projections, p, op) && Sized(s.redis, |s.events|)
    ensures Kept(Projected(s, p, op))
  {
    var s' := Projected(s, p, op);
    P.SentIsKnown(s.projections, p, op, s.processed, s.redis.applied);
    P.RowsGoWhenSent(s.projections, p, op, s.processed, s.redis.applied);
    P.DeskStaysOk(s.projections, p, op, s.processed, s.redis.applied);
    if P.Sent(s.projections, p, op).Some? {
      RecordApplies(s.events, s.redis, P.Sent(s.projections, p, op).value);
    }
    assert s'.redis.applied == s.redis.applied + P.SentIds(s.projections, p, op);
    assert PassedIds(s') == PassedIds(s);
    forall c | c in s'.consumers ensures ConsumerOk(s', s'.consumers[c]) {
      assert ConsumerOk(s, s.consumers[c]);
    }
  }

  lemma TickKeeps(s: State, to: int)
    requires Kept(s) && Enabled(s, Tick(to))
    ensures Kept(Apply(s, Tick(to)))
  {
    var s' := Apply(s, Tick(to));
    assert PassedIds(s') == PassedIds(s);
    forall c | c in s'.consumers ensures ConsumerOk(s', s'.consumers[c]) {
      assert ConsumerOk(s, s.consumers[c]);
    }
  }

  // ---- the worker

  lemma WorkerKeepsPassed(s: State, c: nat, d: Delivery, id: nat)
    requires Kept(s) && CanDeliver(s, c, d) && Sized(s.redis, |s.events|) && Passed(s, id)
    ensures Passed(Work(s, c, d), id)
  {
    if c in s.consumers {
      assert ConsumerOk(s, s.consumers[c]);
    }
  }

  lemma WorkerMoves(s: State, c: nat, d: Delivery)
    requires Kept(s) && CanDeliver(s, c, d) && Sized(s.redis, |s.events|)
    ensures var s' := Work(s, c, d);
            && s'.outbox == s.outbox && s'.projections.pollers == s.projections.pollers && |s'.events| == |s.events|
            && s.redis.applied <= s'.redis.applied && s.processed <= s'.processed
            && Numbered(s')
  {
    if c in s.consumers {
      assert ConsumerOk(s, s.consumers[c]);
      RecordApplies(s.events, s.redis, s.consumers[c].event);
    }
  }

  lemma WorkerKeepsConsumers(s: State, c: nat, d: Delivery, q: nat)
    requires Kept(s) && CanDeliver(s, c, d) && Sized(s.redis, |s.events|) && q in Work(s, c, d).consumers
    ensures ConsumerOk(Work(s, c, d), Work(s, c, d).consumers[q])
  {
    WorkerMoves(s, c, d);
    if q != c {
      assert q in s.consumers && Work(s, c, d).consumers[q] == s.consumers[q];
      assert ConsumerOk(s, s.consumers[q]);
    } else if c in s.consumers {
      assert ConsumerOk(s, s.consumers[c]);
      RecordApplies(s.events, s.redis, s.consumers[c].event);
    }
  }

  lemma WorkerKeepsRows(s: State, c: nat, d: Delivery)
    requires Kept(s) && CanDeliver(s, c, d) && Sized(s.redis, |s.events|)
    ensures var s' := Work(s, c, d);
            && (forall id :: id in s'.projections.rows ==> id in s'.processed && P.RowOk(s'.projections.rows[id]))
            && (forall id :: id in s'.processed ==> id in s'.projections.rows || id in s'.redis.applied)
  {
    WorkerMoves(s, c, d);
    if c in s.consumers {
      assert ConsumerOk(s, s.consumers[c]);
    }
  }

  lemma WorkerKeepsDesks(s: State, c: nat, d: Delivery)
    requires Kept(s) && CanDeliver(s, c, d) && Sized(s.redis, |s.events|)
    ensures var s' := Work(s, c, d);
            P.DeskOk(s'.outbox, Below(|s'.events|), PassedIds(s')) && P.DeskOk(s'.projections, s'.processed,
                                                                               s'.redis.applied)
  {
    var s' := Work(s, c, d);
    WorkerMoves(s, c, d);
    WorkerKeepsRows(s, c, d);
    forall id | id in PassedIds(s) ensures id in PassedIds(s') {
      WorkerKeepsPassed(s, c, d, id);
    }
    P.MoreGone(s.outbox, Below(|s.events|), PassedIds(s), Below(|s'.events|), PassedIds(s'));
    P.MoreGone(s.projections, s.processed, s.redis.applied, s'.processed, s'.redis.applied);
  }

  lemma WorkerKeeps(s: State, c: nat, d: Delivery)
    requires Kept(s) && CanDeliver(s, c, d) && Sized(s.redis, |s.events|)
    ensures Kept(Work(s, c, d))
  {
    var s' := Work(s, c, d);
    WorkerMoves(s, c, d);
    WorkerKeepsRows(s, c, d);
    WorkerKeepsDesks(s, c, d);
    forall q | q in s'.consumers ensures ConsumerOk(s', s'.consumers[q]) {
      WorkerKeepsConsumers(s, c, d, q);
    }
    forall id | 0 <= id < |s'.events| ensures id in s'.outbox.rows || Passed(s', id) {
      if Passed(s, id) {
        WorkerKeepsPassed(s, c, d, id);
      }
    }
  }

  // ---------------------------------------------------------------- runs

  lemma StepKeepsInv(s: State, step: Step)
    requires Inv(s) && Enabled(s, step)
    ensures Inv(Apply(s, step))
  {
    StepKeepsBooks(s, step);
    match step
    case Emit(event, now) => EmitKeeps(s, event, now);
    case OutboxStep(p, op) => OutboxKeeps(s, p, op);
    case WorkerStep(c, d) => WorkerKeeps(s, c, d);
    case ProjectionStep(p, op) => ProjectionKeeps(s, p, op);
    case Tick(to) => TickKeeps(s, to);
  }

  ghost predicate IsRun(s: State, steps: seq<Step>)
    decreases |steps|
  {
    steps == [] || (Enabled(s, steps[0]) && IsRun(Apply(s, steps[0]), steps[1..]))
  }

  ghost function Reached(s: State, steps: seq<Step>): State
    requires IsRun(s, steps)
    decreases |steps|
  {
    if steps == [] then s else Reached(Apply(s, steps[0]), steps[1..])
  }

  lemma {:induction false} RunKeepsInv(s: State, steps: seq<Step>)
    requires Inv(s) && IsRun(s, steps)
    ensures Inv(Reached(s, steps))
    decreases |steps|
  {
    if steps != [] {
      StepKeepsInv(s, steps[0]);
      RunKeepsInv(Apply(s, steps[0]), steps[1..]);
    }
  }

  // In every run, every event ever written is in the outbox, queued, dead-lettered, in the projection table or applied.
  lemma NoEventIsLost(steps: seq<Step>, id: nat)
    requires IsRun(EMPTY, steps)
    ensures var s := Reached(EMPTY, steps); id < |s.events| ==> Somewhere(s, id)
  {
    RunKeepsInv(EMPTY, steps);
  }

  // In every run, a delta has entered its bucket once for each time its key expired, and once more if the key lives.
  lemma OncePerKeyLifetime(steps: seq<Step>, id: nat)
    requires IsRun(EMPTY, steps) && id < |Reached(EMPTY, steps).events|
    ensures var s := Reached(EMPTY, steps);
            Sized(s.redis, |s.events|) && s.redis.hits[id] == s.redis.expired[id] + if id in s.redis.keys then 1 else 0
  {
    RunKeepsInv(EMPTY, steps);
    var s := Reached(EMPTY, steps);
    assert Account(s.events[id], s.redis, id);
  }

  // ---------------------------------------------------------------- building runs

  lemma OneStep(s: State, step: Step, rest: seq<Step>, s': State)
    requires Enabled(s, step) && Apply(s, step) == s' && IsRun(s', rest)
    ensures IsRun(s, [step] + rest) && Reached(s, [step] + rest) == Reached(s', rest)
  {
    assert ([step] + rest)[1..] == rest;
  }

  lemma {:induction false} RunThen(s: State, a: seq<Step>, b: seq<Step>)
    requires IsRun(s, a) && IsRun(Reached(s, a), b)
    ensures IsRun(s, a + b) && Reached(s, a + b) == Reached(Reached(s, a), b)
    decreases |a|
  {
    if a == [] {
      assert a + b == b;
    } else {
      RunThen(Apply(s, a[0]), a[1..], b);
      assert (a + b)[1..] == a[1..] + b;
    }
  }
}
