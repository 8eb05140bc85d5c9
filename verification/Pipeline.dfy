/**
 A popularity event's way from the business transaction to its Redis minute bucket: outbox row, poller, queue,
 worker, projection row, second poller (outbox/poller.go, mq/consumer.go, worker/popularity_worker.go,
 popularity/service.go, popularity/projection_poller.go). Every transaction, broker call and Redis script is one
 step; steps of all processes interleave freely, any process may die between two of its own steps, and a call that
 reports failure may or may not have taken effect.
*/
module Pipeline {
  import opened Wrappers
  import opened LeaseTable
  import P = Pollers

  datatype Event = Event(video: nat, delta: int, minute: int)

  datatype Consumer = Got(event: nat) | Committed(event: nat) | Recorded(event: nat) | Finished(event: nat)

  // How long the script lets a bucket live after its last write, and an event key after its only one (seconds).
  const BUCKET_TTL := 7200
  const EVENT_TTL := BUCKET_TTL + 3600

  // Event keys and minute buckets with the times at which they expire. The last six fields are history: the events
  // RecordEvent has run for, how often each event's delta entered a bucket, how often its key expired, how often it
  // entered since its bucket last expired, when each live bucket was first written, and the minutes whose bucket ever
  // expired.
  datatype Redis = Redis(
    clock: int,
    keys: map<nat, int>,
    buckets: map<(int, nat), int>,
    deadlines: map<int, int>,
    applied: set<nat>,
    hits: seq<nat>,
    expired: seq<nat>,
    inBucket: seq<nat>,
    firstWrite: map<int, int>,
    gone: set<int>)

  // Events are numbered in the order they are written; the number is event id and row id. The queue counts a message
  // until it is acknowledged.
  datatype State = State(
    events: seq<Event>,
    outbox: P.Desk,
    queue: multiset<nat>,
    dead: multiset<nat>,
    consumers: map<nat, Consumer>,
    processed: set<nat>,
    projections: P.Desk,
    redis: Redis)

  const IDLE: P.Desk := P.Desk(map[], map[])
  const EMPTY_REDIS: Redis := Redis(0, map[], map[], map[], {}, [], [], [], map[], {})
  const EMPTY: State := State([], IDLE, multiset{}, multiset{}, map[], {}, IDLE, EMPTY_REDIS)

  datatype Delivery =
    | Deliver(id: nat)
    | Handle(now: int)
    | Reject(landed: bool, now: int)
    | Record
    | RecordFails(landed: bool)
    | DropProjection(ok: bool)
    | Acknowledge
    | Die

  datatype Step =
    | Emit(event: Event, now: int)
    | OutboxStep(poller: nat, op: P.Op)
    | WorkerStep(consumer: nat, delivery: Delivery)
    | ProjectionStep(poller: nat, op: P.Op)
    | Tick(to: int)

  // ---------------------------------------------------------------- Redis

  function Score(r: Redis, minute: int, video: nat): int {
    if (minute, video) in r.buckets then r.buckets[(minute, video)] else 0
  }

  predicate Sized(r: Redis, n: nat) {
    |r.hits| == n && |r.expired| == n && |r.inBucket| == n
  }

  // RecordEvent: a zero delta is nothing to do; otherwise SET NX EX, and only its winner increments and refreshes.
  function RecordEvent(events: seq<Event>, r: Redis, id: nat): Redis
    requires Sized(r, |events|)
  {
    if id >= |events| then r
    else if events[id].delta == 0 || id in r.keys then r.(applied := r.applied + {id})
    else
      var e := events[id];
      r.(keys := r.keys[id := r.clock + EVENT_TTL],
         buckets := r.buckets[(e.minute, e.video) := Score(r, e.minute, e.video) + e.delta],
         deadlines := r.deadlines[e.minute := r.clock + BUCKET_TTL],
         applied := r.applied + {id},
         hits := r.hits[id := r.hits[id] + 1],
         inBucket := r.inBucket[id := r.inBucket[id] + 1],
         firstWrite := if e.minute in r.deadlines then r.firstWrite else r.firstWrite[e.minute := r.clock])
  }

  function KeysDue(r: Redis, to: int): set<nat> {
    set id | id in r.keys && r.keys[id] <= to
  }

  function BucketsDue(r: Redis, to: int): set<int> {
    set minute | minute in r.deadlines && r.deadlines[minute] <= to
  }

  function CountUp(counts: seq<nat>, ids: set<nat>): seq<nat> {
    seq(|counts|, i requires 0 <= i < |counts| => counts[i] + if i in ids then 1 else 0)
  }

  function Forget(events: seq<Event>, counts: seq<nat>, minutes: set<int>): seq<nat>
    requires |counts| == |events|
  {
    seq(|counts|, i requires 0 <= i < |counts| => if events[i].minute in minutes then 0 else counts[i])
  }

  // Time passes: whatever reaches its deadline is gone, keys and buckets alike.
  function Ticked(events: seq<Event>, r: Redis, to: int): Redis
    requires Sized(r, |events|)
  {
    var keysDue, bucketsDue := KeysDue(r, to), BucketsDue(r, to);
    Redis(to, r.keys - keysDue, (map k | k in r.buckets && k.0 !in bucketsDue :: r.buckets[k]),
          r.deadlines - bucketsDue,
          r.applied, r.hits, CountUp(r.expired, keysDue), Forget(events, r.inBucket,
                                                                 bucketsDue), r.firstWrite - bucketsDue,
          r.gone + bucketsDue)
  }

  // ---------------------------------------------------------------- the worker

  // The worker refuses a payload without a video.
  predicate Readable(events: seq<Event>, id: nat) {
    id < |events| && events[id].video != 0
  }

  predicate CanDeliver(s: State, c: nat, d: Delivery) {
    match d
    case Deliver(id) => c !in s.consumers && id in s.queue
    case Handle(_) => c in s.consumers && s.consumers[c].Got? && Readable(s.events, s.consumers[c].event)
    case Reject(landed, _) =>
      c in s.consumers && s.consumers[c].Got? && (landed ==> Readable(s.events, s.consumers[c].event))
    case Record => c in s.consumers && s.consumers[c].Committed?
    case RecordFails(_) => c in s.consumers && s.consumers[c].Committed?
    case DropProjection(_) => c in s.consumers && s.consumers[c].Recorded?
    case Acknowledge => c in s.consumers && s.consumers[c].Finished?
    case Die => c in s.consumers
  }

  // One transaction: the dedup row and the projection row, or nothing.
  function Taken(s: State, id: nat, now: int): State {
    if id in s.processed then s
    else s.(processed := s.processed + {id},
            projections := s.projections.(rows := s.projections.rows[id := NewRow(now)]))
  }

  function Work(s: State, c: nat, d: Delivery): State
    requires CanDeliver(s, c, d) && Sized(s.redis, |s.events|)
  {
    match d
    case Deliver(id) => s.(consumers := s.consumers[c := Got(id)])
    case Handle(now) =>
      var id := s.consumers[c].event;
      Taken(s, id, now).(consumers := s.consumers[c := if id in s.processed then Finished(id) else Committed(id)])
    case Reject(landed, now) =>
      var id := s.consumers[c].event;
      var s' := if landed then Taken(s, id, now) else s;
      s'.(queue := s.queue - multiset{id}, dead := s.dead + multiset{id}, consumers := s.consumers - {c})
    case Record =>
      var id := s.consumers[c].event;
      s.(redis := RecordEvent(s.events, s.redis, id), consumers := s.consumers[c := Recorded(id)])
    case RecordFails(landed) =>
      var id := s.consumers[c].event;
      s.(redis := if landed then RecordEvent(s.events, s.redis, id) else s.redis,
         consumers := s.consumers[c := Finished(id)])
    case DropProjection(ok) =>
      var id := s.consumers[c].event;
      s.(projections := s.projections.(rows := if ok then s.projections.rows - {id} else s.projections.rows),
         consumers := s.consumers[c := Finished(id)])
    case Acknowledge =>
      s.(queue := s.queue - multiset{s.consumers[c].event}, consumers := s.consumers - {c})
    case Die => s.(consumers := s.consumers - {c})
  }

  // ---------------------------------------------------------------- all steps

  predicate Enabled(s: State, step: Step) {
    && Sized(s.redis, |s.events|)
    && match step
       case Emit(_, _) => true
       case OutboxStep(p, op) => P.Can(s.outbox, p, op)
       case WorkerStep(c, d) => CanDeliver(s, c, d)
       case ProjectionStep(p, op) => P.Can(s.projections, p, op)
       case Tick(to) => s.redis.clock <= to
  }

  function Emitted(s: State, event: Event, now: int): State {
    s.(events := s.events + [event],
       outbox := s.outbox.(rows := s.outbox.rows[|s.events| := NewRow(now)]),
       redis := s.redis.(hits := s.redis.hits + [0], expired := s.redis.expired + [0],
                         inBucket := s.redis.inBucket + [0]))
  }

  function Published(s: State, p: nat, op: P.Op): State
    requires P.Can(s.outbox, p, op)
  {
    var sent := P.Sent(s.outbox, p, op);
    s.(outbox := P.Work(s.outbox, p, op), queue := if sent.Some? then s.queue + multiset{sent.value} else s.queue)
  }

  function Projected(s: State, p: nat, op: P.Op): State
    requires P.Can(s.projections, p, op) && Sized(s.redis, |s.events|)
  {
    var sent := P.Sent(s.projections, p, op);
    s.(projections := P.Work(s.projections, p, op),
       redis := if sent.Some? then RecordEvent(s.events, s.redis, sent.value) else s.redis)
  }

  function Apply(s: State, step: Step): State
    requires Enabled(s, step)
  {
    match step
    case Emit(event, now) => Emitted(s, event, now)
    case OutboxStep(p, op) => Published(s, p, op)
    case WorkerStep(c, d) => Work(s, c, d)
    case ProjectionStep(p, op) => Projected(s, p, op)
    case Tick(to) => s.(redis := Ticked(s.events, s.redis, to))
  }
}
