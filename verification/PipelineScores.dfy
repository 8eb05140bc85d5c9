/**
 What the bucket scores of the popularity pipeline mean in every run: how often each event counts, when a drained
 bucket is the sum of its events, and why a bucket written within an hour always is.
*/
module PipelineScores {
  import opened Sums
  import opened Pipeline
  import opened PipelineBooks
  import opened PipelineSafety

  predicate Drained(s: State) {
    s.outbox.rows == map[] && s.queue == multiset{} && s.dead == multiset{} && s.projections.rows == map[]
  }

  predicate Belongs(e: Event, minute: int, video: nat) {
    e.minute == minute && e.video == video
  }

  ghost function SumOfDeltas(events: seq<Event>, minute: int, video: nat): int {
    if events == [] then 0
    else
      var e := events[|events| - 1];
      SumOfDeltas(events[..|events| - 1], minute, video) + if Belongs(e, minute, video) then e.delta else 0
  }

  // What the counts beyond the first add to the bucket.
  ghost function Surplus(events: seq<Event>, counts: seq<nat>, minute: int, video: nat): int
    requires |counts| == |events|
  {
    if events == [] then 0
    else
      var n := |events| - 1;
      Surplus(events[..n], counts[..n], minute, video)
      + if Belongs(events[n], minute, video) && counts[n] > 0 then Times(counts[n] - 1, events[n].delta) else 0
  }

  // ---------------------------------------------------------------- sums

  lemma {:induction false} SameTotal(events: seq<Event>, a: seq<nat>, b: seq<nat>, minute: int, video: nat)
    requires |a| == |events| == |b| && forall i :: 0 <= i < |events| && events[i].minute == minute ==> a[i] == b[i]
    ensures Total(events, a, minute, video) == Total(events, b, minute, video)
  {
    if events != [] {
      var n := |events| - 1;
      SameTotal(events[..n], a[..n], b[..n], minute, video);
    }
  }

  lemma {:induction false} TotalIsSumAndSurplus(events: seq<Event>, counts: seq<nat>, minute: int, video: nat)
    requires |counts| == |events|
    requires forall i :: 0 <= i < |events| && events[i].delta != 0 ==> counts[i] > 0
    ensures Total(events, counts, minute, video)
              == SumOfDeltas(events, minute, video) + Surplus(events, counts, minute, video)
  {
    if events != [] {
      var n := |events| - 1;
      TotalIsSumAndSurplus(events[..n], counts[..n], minute, video);
      if events[n].delta == 0 {
        TimesZero(counts[n]);
        TimesZero(if counts[n] > 0 then counts[n] - 1 else 0);
      }
    }
  }

  predicate OneSign(events: seq<Event>, minute: int, video: nat, up: bool) {
    forall i :: 0 <= i < |events| && Belongs(events[i], minute, video) ==>
      if up then events[i].delta >= 0 else events[i].delta <= 0
  }

  predicate OnceEach(events: seq<Event>, counts: seq<nat>, minute: int, video: nat)
    requires |counts| == |events|
  {
    forall i :: 0 <= i < |events| && Belongs(events[i], minute, video) && events[i].delta != 0 ==> counts[i] <= 1
  }

  lemma {:induction false} NoSurplus(events: seq<Event>, counts: seq<nat>, minute: int, video: nat)
    requires |counts| == |events| && OnceEach(events, counts, minute, video)
    ensures Surplus(events, counts, minute, video) == 0
  {
    if events != [] {
      var n := |events| - 1;
      NoSurplus(events[..n], counts[..n], minute, video);
      TimesZero(if counts[n] > 0 then counts[n] - 1 else 0);
    }
  }

  lemma {:induction false} SurplusSign(events: seq<Event>, counts: seq<nat>, minute: int, video: nat, up: bool)
    requires |counts| == |events| && OneSign(events, minute, video, up)
    ensures if up then Surplus(events, counts, minute, video) >= 0 else Surplus(events, counts, minute, video) <= 0
    ensures Surplus(events, counts, minute, video) == 0 ==> OnceEach(events, counts, minute, video)
  {
    if events != [] {
      var n := |events| - 1;
      SurplusSign(events[..n], counts[..n], minute, video, up);
      TimesSign(if counts[n] > 0 then counts[n] - 1 else 0, events[n].delta);
      assert Surplus(events, counts, minute, video) == 0 ==> Surplus(events[..n], counts[..n], minute, video) == 0;
    }
  }

  // ---------------------------------------------------------------- every run

  // In every reachable state, whatever else expired: a bucket that never expired holds each of its events as often as
  // it won.
  lemma HitsMakeScores(s: State, minute: int, video: nat)
    requires Inv(s) && minute !in s.redis.gone
    ensures Score(s.redis, minute, video) == Total(s.events, s.redis.hits, minute, video)
  {
    forall i | 0 <= i < |s.events| && s.events[i].minute == minute ensures s.redis.inBucket[i] == s.redis.hits[i] {
      assert Account(s.events[i], s.redis, i);
    }
    SameTotal(s.events, s.redis.inBucket, s.redis.hits, minute, video);
  }

  lemma ScoresCountHits(steps: seq<Step>, minute: int, video: nat)
    requires IsRun(EMPTY, steps) && minute !in Reached(EMPTY, steps).redis.gone
    ensures var s := Reached(EMPTY, steps);
            |s.redis.hits| == |s.events| && Score(s.redis, minute, video) == Total(s.events, s.redis.hits, minute, video)
  {
    RunKeepsInv(EMPTY, steps);
    HitsMakeScores(Reached(EMPTY, steps), minute, video);
  }

  // In every run and at any moment: a bucket whose last write came at most an hour after its first holds no event
  // twice.
  lemma BriefBucketsCountOnce(steps: seq<Step>, id: nat)
    requires IsRun(EMPTY, steps) && id < |Reached(EMPTY, steps).events|
    requires Brief(Reached(EMPTY, steps).redis, Reached(EMPTY, steps).events[id].minute)
    ensures var r := Reached(EMPTY, steps).redis; id < |r.inBucket| && r.inBucket[id] <= 1
  {
    RunKeepsInv(EMPTY, steps);
    var s := Reached(EMPTY, steps);
    assert CountedOnce(s.redis, id, s.events[id].minute);
  }

  // ---------------------------------------------------------------- drained stores

  lemma DrainedMeansHit(s: State)
    requires Inv(s) && Drained(s)
    ensures forall id :: 0 <= id < |s.events| && s.events[id].delta != 0 ==> s.redis.hits[id] > 0
  {
    forall id | 0 <= id < |s.events| && s.events[id].delta != 0 ensures s.redis.hits[id] > 0 {
      assert id !in s.outbox.rows && id !in s.queue && id !in s.dead && id !in s.projections.rows;
      assert id in s.redis.applied;
      assert Account(s.events[id], s.redis, id);
    }
  }

  // A drained bucket that never expired is off by exactly its repeated counts.
  lemma DrainedScore(s: State, minute: int, video: nat)
    requires Inv(s) && Drained(s) && minute !in s.redis.gone
    ensures Score(s.redis, minute, video)
              == SumOfDeltas(s.events, minute, video) + Surplus(s.events, s.redis.hits, minute, video)
  {
    HitsMakeScores(s, minute, video);
    DrainedMeansHit(s);
    TotalIsSumAndSurplus(s.events, s.redis.hits, minute, video);
  }

  lemma OnceEachIsSum(s: State, minute: int, video: nat)
    requires Inv(s) && Drained(s) && minute !in s.redis.gone && OnceEach(s.events, s.redis.hits, minute, video)
    ensures Score(s.redis, minute, video) == SumOfDeltas(s.events, minute, video)
  {
    DrainedScore(s, minute, video);
    NoSurplus(s.events, s.redis.hits, minute, video);
  }

  lemma SumIsOnceEach(s: State, minute: int, video: nat, up: bool)
    requires Inv(s) && Drained(s) && minute !in s.redis.gone && OneSign(s.events, minute, video, up)
    requires Score(s.redis, minute, video) == SumOfDeltas(s.events, minute, video)
    ensures OnceEach(s.events, s.redis.hits, minute, video)
  {
    DrainedScore(s, minute, video);
    SurplusSign(s.events, s.redis.hits, minute, video, up);
  }

  // If its events do not pull in two directions, it is the sum of its events if and only if none counted twice.
  lemma DrainedBucketIsSumIffOnceEach(steps: seq<Step>, minute: int, video: nat, up: bool)
    requires IsRun(EMPTY, steps) && Drained(Reached(EMPTY, steps)) && minute !in Reached(EMPTY, steps).redis.gone
    requires OneSign(Reached(EMPTY, steps).events, minute, video, up)
    ensures var s := Reached(EMPTY, steps);
            && |s.redis.hits| == |s.events|
            && ((Score(s.redis, minute, video) == SumOfDeltas(s.events, minute, video)) <==>
                (OnceEach(s.events, s.redis.hits, minute, video)))
  {
    RunKeepsInv(EMPTY, steps);
    var s := Reached(EMPTY, steps);
    if OnceEach(s.events, s.redis.hits, minute, video) {
      OnceEachIsSum(s, minute, video);
    } else if Score(s.redis, minute, video) == SumOfDeltas(s.events, minute, video) {
      SumIsOnceEach(s, minute, video, up);
    }
  }

  lemma BriefMeansOnce(s: State, id: nat)
    requires Inv(s) && id < |s.events| && s.events[id].minute !in s.redis.gone
    requires s.events[id].minute in s.redis.deadlines ==> Brief(s.redis, s.events[id].minute)
    ensures s.redis.hits[id] <= 1
  {
    var minute := s.events[id].minute;
    assert Account(s.events[id], s.redis, id);
    if minute in s.redis.deadlines {
      assert CountedOnce(s.redis, id, minute);
    }
  }

  lemma BriefBucketIsSum(s: State, minute: int, video: nat)
    requires Inv(s) && Drained(s) && minute !in s.redis.gone
    requires minute in s.redis.deadlines ==> Brief(s.redis, minute)
    ensures Score(s.redis, minute, video) == SumOfDeltas(s.events, minute, video)
  {
    forall i | 0 <= i < |s.events| && Belongs(s.events[i], minute, video) ensures s.redis.hits[i] <= 1 {
      BriefMeansOnce(s, i);
    }
    OnceEachIsSum(s, minute, video);
  }

  // Once everything has drained without dead letters, a bucket that never expired and was written within an hour is
  // the sum of its distinct events, however often they were published, delivered and replayed and whatever expired.
  lemma DrainedBucketsAreSums(steps: seq<Step>, minute: int, video: nat)
    requires IsRun(EMPTY, steps) && Drained(Reached(EMPTY, steps)) && minute !in Reached(EMPTY, steps).redis.gone
    requires minute in Reached(EMPTY, steps).redis.deadlines ==> Brief(Reached(EMPTY, steps).redis, minute)
    ensures var s := Reached(EMPTY, steps); Score(s.redis, minute, video) == SumOfDeltas(s.events, minute, video)
  {
    RunKeepsInv(EMPTY, steps);
    BriefBucketIsSum(Reached(EMPTY, steps), minute, video);
  }
}
