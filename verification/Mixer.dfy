/** The recommendation mixer (recommend/mixer.go): diversity picks from three queues over one candidate set. */
module Mixer {
  import opened Wrappers
  import opened Batches
  import opened TopN
  import opened SlotPlan

  datatype Video = Video(id: nat, author: nat, created: int, tags: seq<string>)

  datatype Candidate = Candidate(video: Video, followers: int, vector: seq<real>, rel: real, hot: int)

  datatype Config = Config(smallMaxFollowers: int, slotSmallRatio: real, lambda: real, window: int, nearDup: real)

  type Cosine = (seq<real>, seq<real>) -> real

  function Ids(cands: seq<Candidate>): set<nat> {
    set c | c in cands :: c.video.id
  }

  ghost predicate IdsUnique(cands: seq<Candidate>) {
    forall i, j :: 0 <= i < j < |cands| ==> cands[i].video.id != cands[j].video.id
  }

  // ---------------------------------------------------------------- the two tests and the score

  predicate AuthorNear(picked: seq<Candidate>, author: nat, window: int) {
    && window > 0 && author != 0
    && exists i :: 0 <= i < |picked| && i >= |picked| - window && picked[i].video.author == author
  }

  method AuthorInWindow(picked: seq<Candidate>, author: nat, window: int) returns (near: bool)
    ensures near <==> AuthorNear(picked, author, window)
  {
    if window <= 0 || author == 0 {
      return false;
    }
    var start := |picked| - window;
    if start < 0 {
      start := 0;
    }
    for i := start to |picked|
      invariant forall j :: start <= j < i ==> picked[j].video.author != author
    {
      if picked[i].video.author == author {
        return true;
      }
    }
    return false;
  }

  predicate NearDuplicate(picked: seq<Candidate>, c: Candidate, threshold: real, cosine: Cosine) {
    && threshold > 0.0 && c.vector != []
    && exists i :: 0 <= i < |picked| && picked[i].vector != [] && cosine(c.vector, picked[i].vector) > threshold
  }

  method TooSimilar(picked: seq<Candidate>, c: Candidate, threshold: real, cosine: Cosine) returns (similar: bool)
    ensures similar <==> NearDuplicate(picked, c, threshold, cosine)
  {
    if threshold <= 0.0 || |c.vector| == 0 {
      return false;
    }
    for i := 0 to |picked|
      invariant forall j :: 0 <= j < i && picked[j].vector != [] ==> cosine(c.vector, picked[j].vector) <= threshold
    {
      if |picked[i].vector| == 0 {
        continue;
      }
      if cosine(c.vector, picked[i].vector) > threshold {
        return true;
      }
    }
    return false;
  }

  // The closest picked item, 0 when none is closer than that.
  function MaxSim(picked: seq<Candidate>, c: Candidate, cosine: Cosine): (m: real)
    ensures m >= 0.0
    ensures forall i :: 0 <= i < |picked| && picked[i].vector != [] ==> m >= cosine(c.vector, picked[i].vector)
    ensures m == 0.0 || exists i :: 0 <= i < |picked| && picked[i].vector != [] && m == cosine(c.vector, picked[i].vector)
  {
    if picked == [] then 0.0
    else
      var n := |picked| - 1;
      var m := MaxSim(picked[..n], c, cosine);
      if picked[n].vector != [] && cosine(c.vector, picked[n].vector) > m then cosine(c.vector, picked[n].vector) else m
  }

  function Weigh(lambda: real, rel: real, sim: real): real {
    lambda * rel - (1.0 - lambda) * sim
  }

  function Score(picked: seq<Candidate>, c: Candidate, cfg: Config, cosine: Cosine): real {
    if picked == [] || c.vector == [] then cfg.lambda * c.rel else Weigh(cfg.lambda, c.rel, MaxSim(picked, c, cosine))
  }

  lemma MaxSimStep(picked: seq<Candidate>, c: Candidate, cosine: Cosine, i: nat)
    requires i < |picked|
    ensures var m := MaxSim(picked[..i], c, cosine);
            MaxSim(picked[..i + 1], c, cosine)
              == if picked[i].vector != [] && cosine(c.vector, picked[i].vector) > m
                 then cosine(c.vector, picked[i].vector) else m
  {
    assert picked[..i + 1][..i] == picked[..i];
  }

  method Closest(picked: seq<Candidate>, c: Candidate, cosine: Cosine) returns (maxSim: real)
    ensures maxSim == MaxSim(picked, c, cosine)
  {
    maxSim := 0.0;
    for i := 0 to |picked|
      invariant maxSim == MaxSim(picked[..i], c, cosine)
    {
      MaxSimStep(picked, c, cosine, i);
      if |picked[i].vector| == 0 {
        continue;
      }
      var sim := cosine(c.vector, picked[i].vector);
      if sim > maxSim {
        maxSim := sim;
      }
    }
    assert picked[..|picked|] == picked;
  }

  method ScoreOf(picked: seq<Candidate>, c: Candidate, cfg: Config, cosine: Cosine) returns (score: real)
    ensures score == Score(picked, c, cfg, cosine)
  {
    score := cfg.lambda * c.rel;
    if |picked| > 0 && |c.vector| > 0 {
      var maxSim := Closest(picked, c, cosine);
      score := Penalized(score, cfg.lambda, c.rel, maxSim);
    }
  }

  method Penalized(score: real, lambda: real, rel: real, maxSim: real) returns (r: real)
    requires score == lambda * rel
    ensures r == Weigh(lambda, rel, maxSim)
  {
    r := score - (1.0 - lambda) * maxSim;
  }

  // Relevance raises a score and likeness to what was picked lowers it: of two candidates with vectors, the one that is no
  // more relevant and closer to some pick than the other is to any scores less.
  lemma CloserScoresLess(picked: seq<Candidate>, a: Candidate, b: Candidate, cfg: Config, cosine: Cosine, i: nat)
    requires 0.0 <= cfg.lambda < 1.0 && a.rel <= b.rel && a.vector != [] && b.vector != []
    requires i < |picked| && picked[i].vector != [] && cosine(a.vector, picked[i].vector) > 0.0
    requires forall j :: 0 <= j < |picked| && picked[j].vector != [] ==>
               cosine(b.vector, picked[j].vector) < cosine(a.vector, picked[i].vector)
    ensures Score(picked, a, cfg, cosine) < Score(picked, b, cfg, cosine)
  {
    FartherFromAll(picked, a, b, cosine, i);
    LessLikeScoresMore(picked, a, b, cfg, cosine);
  }

  lemma LessLikeScoresMore(picked: seq<Candidate>, a: Candidate, b: Candidate, cfg: Config, cosine: Cosine)
    requires 0.0 <= cfg.lambda < 1.0 && a.rel <= b.rel && picked != [] && a.vector != [] && b.vector != []
    requires MaxSim(picked, b, cosine) < MaxSim(picked, a, cosine)
    ensures Score(picked, a, cfg, cosine) < Score(picked, b, cfg, cosine)
  {
    ScoreGap(cfg.lambda, a.rel, b.rel, MaxSim(picked, a, cosine), MaxSim(picked, b, cosine));
  }

  lemma FartherFromAll(picked: seq<Candidate>, a: Candidate, b: Candidate, cosine: Cosine, i: nat)
    requires i < |picked| && picked[i].vector != [] && cosine(a.vector, picked[i].vector) > 0.0
    requires forall j :: 0 <= j < |picked| && picked[j].vector != [] ==>
               cosine(b.vector, picked[j].vector) < cosine(a.vector, picked[i].vector)
    ensures MaxSim(picked, b, cosine) < MaxSim(picked, a, cosine)
  {
    var y := MaxSim(picked, b, cosine);
    assert y < cosine(a.vector, picked[i].vector);
  }

  lemma ProductGap(l: real, p: real, q: real, x: real, y: real)
    requires 0.0 <= l < 1.0 && p <= q && y < x
    ensures l * p - (1.0 - l) * x < l * q - (1.0 - l) * y
  {
    NotNegative(l, q - p);
    Positive(1.0 - l, x - y);
    assert l * (q - p) == l * q - l * p;
    assert (1.0 - l) * (x - y) == (1.0 - l) * x - (1.0 - l) * y;
  }

  lemma ScoreGap(l: real, p: real, q: real, x: real, y: real)
    requires 0.0 <= l < 1.0 && p <= q && y < x
    ensures Weigh(l, p, x) < Weigh(l, q, y)
  {
    ProductGap(l, p, q, x, y);
  }

  // The exact value, with m the likeness to the closest pick that has a vector, or 0.
  lemma ScoreIs(picked: seq<Candidate>, c: Candidate, cfg: Config, cosine: Cosine) returns (m: real)
    ensures Score(picked, c, cfg, cosine) == cfg.lambda * c.rel - (1.0 - cfg.lambda) * m
    ensures m >= 0.0 && (c.vector == [] ==> m == 0.0)
    ensures c.vector != [] ==> forall i :: 0 <= i < |picked| && picked[i].vector != [] ==>
                                 m >= cosine(c.vector, picked[i].vector)
    ensures m == 0.0 || exists i :: 0 <= i < |picked| && picked[i].vector != [] && m == cosine(c.vector, picked[i].vector)
  {
    m := if picked == [] || c.vector == [] then 0.0 else MaxSim(picked, c, cosine);
  }

  predicate Passes(picked: seq<Candidate>, c: Candidate, cfg: Config, cosine: Cosine) {
    !AuthorNear(picked, c.video.author, cfg.window) && !NearDuplicate(picked, c, cfg.nearDup, cosine)
  }

  // The author is near exactly if he is one of the authors of the last picks, as many as the window holds.
  lemma NearIsInTheLast(picked: seq<Candidate>, author: nat, window: int)
    requires 0 < window && author != 0
    ensures var last := if |picked| <= window then picked else picked[|picked| - window..];
            AuthorNear(picked, author, window) <==> exists c :: c in last && c.video.author == author
  {
    var cut := if |picked| <= window then 0 else |picked| - window;
    var last := picked[cut..];
    if AuthorNear(picked, author, window) {
      var i :| 0 <= i < |picked| && i >= |picked| - window && picked[i].video.author == author;
      assert last[i - cut] == picked[i];
    }
    if exists c :: c in last && c.video.author == author {
      var c :| c in last && c.video.author == author;
      var k :| 0 <= k < |last| && last[k] == c;
      assert picked[cut + k] == c;
    }
  }

  // An item is a near duplicate exactly if its likeness to the closest pick, the one its score is lowered by, exceeds
  // the threshold.
  lemma DuplicateIffClosestIs(picked: seq<Candidate>, c: Candidate, threshold: real, cosine: Cosine)
    requires threshold > 0.0 && c.vector != []
    ensures NearDuplicate(picked, c, threshold, cosine) <==> MaxSim(picked, c, cosine) > threshold
  {}

  // ---------------------------------------------------------------- one pick

  predicate Offered(picked: seq<Candidate>, used: set<nat>, c: Candidate, cfg: Config, cosine: Cosine, strict: bool) {
    c.video.id !in used && (strict ==> Passes(picked, c, cfg, cosine))
  }

  ghost predicate IsBest(pool: seq<Candidate>, picked: seq<Candidate>, used: set<nat>, c: Candidate, cfg: Config,
                         cosine: Cosine, strict: bool) {
    && c in pool && Offered(picked, used, c, cfg, cosine, strict)
    && forall d :: d in pool && Offered(picked, used, d, cfg, cosine, strict) ==>
         Score(picked, d, cfg, cosine) <= Score(picked, c, cfg, cosine)
  }

  method BestMMRIndex(pool: seq<Candidate>, picked: seq<Candidate>, used: set<nat>, cfg: Config, cosine: Cosine,
                      strict: bool)
    returns (best: int)
    ensures -1 <= best < |pool|
    ensures best < 0 ==> forall d :: d in pool ==> !Offered(picked, used, d, cfg, cosine, strict)
    ensures best >= 0 ==> IsBest(pool, picked, used, pool[best], cfg, cosine, strict)
  {
    best := -1;
    var bestScore := 0.0;
    for i := 0 to |pool|
      invariant -1 <= best < i
      invariant best < 0 ==> forall j :: 0 <= j < i ==> !Offered(picked, used, pool[j], cfg, cosine, strict)
      invariant best >= 0 ==> Offered(picked, used, pool[best], cfg, cosine, strict)
      invariant best >= 0 ==> bestScore == Score(picked, pool[best], cfg, cosine)
      invariant best >= 0 ==> forall j :: 0 <= j < i && Offered(picked, used, pool[j], cfg, cosine, strict) ==>
                                Score(picked, pool[j], cfg, cosine) <= bestScore
    {
      var c := pool[i];
      if c.video.id in used {
        continue;
      }
      if strict {
        var near := AuthorInWindow(picked, c.video.author, cfg.window);
        if near {
          continue;
        }
        var similar := TooSimilar(picked, c, cfg.nearDup, cosine);
        if similar {
          continue;
        }
      }
      var score := ScoreOf(picked, c, cfg, cosine);
      if best < 0 || score > bestScore {
        bestScore := score;
        best := i;
      }
    }
  }

  // The best item that passes both tests, or, only when no unused item passes, the best unused item.
  ghost predicate IsPick(pool: seq<Candidate>, picked: seq<Candidate>, used: set<nat>, c: Candidate, cfg: Config,
                         cosine: Cosine) {
    || IsBest(pool, picked, used, c, cfg, cosine, true)
    || (IsBest(pool, picked, used, c, cfg, cosine, false)
        && forall d :: d in pool && d.video.id !in used ==> !Passes(picked, d, cfg, cosine))
  }

  predicate Exhausted(pool: seq<Candidate>, used: set<nat>) {
    forall c :: c in pool ==> c.video.id in used
  }

  method PickMMR(pool: seq<Candidate>, picked: seq<Candidate>, used: set<nat>, cfg: Config, cosine: Cosine)
    returns (index: int)
    ensures -1 <= index < |pool|
    ensures index < 0 <==> Exhausted(pool, used)
    ensures index >= 0 ==> IsPick(pool, picked, used, pool[index], cfg, cosine)
  {
    index := BestMMRIndex(pool, picked, used, cfg, cosine, true);
    if index < 0 {
      index := BestMMRIndex(pool, picked, used, cfg, cosine, false);
    }
  }

  // ---------------------------------------------------------------- a page from three pools

  // A pool that lost only used items offers what the whole pool offers.
  predicate SameOffer(whole: seq<Candidate>, pool: seq<Candidate>, used: set<nat>) {
    && (forall c :: c in whole && c.video.id !in used ==> c in pool)
    && (forall c :: c in pool ==> c in whole)
  }

  lemma SamePick(whole: seq<Candidate>, pool: seq<Candidate>, picked: seq<Candidate>, used: set<nat>, c: Candidate,
                 cfg: Config, cosine: Cosine)
    requires SameOffer(whole, pool, used) && IsPick(pool, picked, used, c, cfg, cosine)
    ensures IsPick(whole, picked, used, c, cfg, cosine) && c in whole && c.video.id !in used
  {
    forall strict | IsBest(pool, picked, used, c, cfg, cosine, strict)
      ensures IsBest(whole, picked, used, c, cfg, cosine, strict) {
    }
  }

  // pickMMR with the picked item taken out of its pool.
  method Take(ghost whole: seq<Candidate>, pool: seq<Candidate>, picked: seq<Candidate>, used: set<nat>, cfg: Config,
              cosine: Cosine)
    returns (item: Option<Candidate>, rest: seq<Candidate>)
    requires SameOffer(whole, pool, used)
    ensures item.None? <==> Exhausted(whole, used)
    ensures item.None? ==> rest == pool
    ensures item.Some? ==> IsPick(whole, picked, used, item.value, cfg, cosine)
                           && item.value in whole && item.value.video.id !in used
                           && SameOffer(whole, rest, used + {item.value.video.id})
  {
    var index := PickMMR(pool, picked, used, cfg, cosine);
    if index < 0 {
      return None, pool;
    }
    item := Some(pool[index]);
    rest := pool[..index] + pool[index + 1..];
    SamePick(whole, pool, picked, used, pool[index], cfg, cosine);
    assert pool == pool[..index] + [pool[index]] + pool[index + 1..];
  }

  // Which pool a slot turns to, and which one when that is used up.
  ghost predicate FillsSlot(q: Queue, interest: seq<Candidate>, small: seq<Candidate>, hot: seq<Candidate>,
                            picked: seq<Candidate>, used: set<nat>, c: Candidate, cfg: Config, cosine: Cosine) {
    var first := match q case Small => small case Hot => hot case Interest => interest;
    var second := match q case Interest => small case _ => interest;
    IsPick(if Exhausted(first, used) then second else first, picked, used, c, cfg, cosine)
  }

  predicate SlotIsDry(q: Queue, interest: seq<Candidate>, small: seq<Candidate>, hot: seq<Candidate>, used: set<nat>) {
    Exhausted(interest, used) && Exhausted(match q case Hot => hot case _ => small, used)
  }

  ghost predicate IsMix(interest: seq<Candidate>, small: seq<Candidate>, hot: seq<Candidate>, cfg: Config,
                        cosine: Cosine,
                        seed: set<nat>, plan: seq<Queue>, slots: seq<nat>, picked: seq<Candidate>) {
    && |slots| == |picked| && Ascending(slots)
    && forall k :: 0 <= k < |picked| ==>
         && slots[k] < |plan|
         && FillsSlot(plan[slots[k]], interest, small, hot, picked[..k], seed + Ids(picked[..k]), picked[k], cfg,
                      cosine)
  }

  ghost predicate IsFresh(picked: seq<Candidate>, seed: set<nat>, cands: set<nat>) {
    IdsUnique(picked) && Ids(picked) !! seed && Ids(picked) <= cands
  }

  // Within the window an author shows up twice only where nothing unused in the slot's pool passed the tests.
  lemma RepeatOnlyIfForced(interest: seq<Candidate>, small: seq<Candidate>, hot: seq<Candidate>, cfg: Config,
                           cosine: Cosine, seed: set<nat>, plan: seq<Queue>, slots: seq<nat>, picked: seq<Candidate>,
                           i: nat, k: nat)
    returns (pool: seq<Candidate>)
    requires IsMix(interest, small, hot, cfg, cosine, seed, plan, slots, picked)
    requires i < k < |picked| && k - i <= cfg.window && picked[i].video.author == picked[k].video.author != 0
    ensures pool == interest || pool == small || pool == hot
    ensures picked[k] in pool
            && forall d :: d in pool && d.video.id !in seed + Ids(picked[..k]) ==> !Passes(picked[..k], d, cfg, cosine)
  {
    var used, q := seed + Ids(picked[..k]), plan[slots[k]];
    var first := match q case Small => small case Hot => hot case Interest => interest;
    pool := if !Exhausted(first, used) then first else match q case Interest => small case _ => interest;
    assert FillsSlot(q, interest, small, hot, picked[..k], used, picked[k], cfg, cosine);
    assert picked[..k][i] == picked[i];
    assert AuthorNear(picked[..k], picked[k].video.author, cfg.window);
  }

  lemma OneMorePicked(picked: seq<Candidate>, seed: set<nat>, cands: set<nat>, c: Candidate)
    requires IsFresh(picked, seed, cands) && c.video.id in cands && c.video.id !in seed + Ids(picked)
    ensures IsFresh(picked + [c], seed, cands) && Ids(picked + [c]) == Ids(picked) + {c.video.id}
  {
    assert forall d :: d in picked + [c] <==> d in picked || d == c;
    assert forall i :: 0 <= i < |picked| ==> picked[i].video.id in Ids(picked);
  }

  lemma OneMoreSlot(interest: seq<Candidate>, small: seq<Candidate>, hot: seq<Candidate>, cfg: Config, cosine: Cosine,
                    seed: set<nat>, plan: seq<Queue>, slots: seq<nat>, picked: seq<Candidate>, i: nat, c: Candidate)
    requires IsMix(interest, small, hot, cfg, cosine, seed, plan, slots, picked) && i < |plan|
    requires forall k :: 0 <= k < |slots| ==> slots[k] < i
    requires FillsSlot(plan[i], interest, small, hot, picked, seed + Ids(picked), c, cfg, cosine)
    ensures IsMix(interest, small, hot, cfg, cosine, seed, plan, slots + [i], picked + [c])
  {
    var more := picked + [c];
    forall k | 0 <= k < |more| ensures more[..k] == picked[..k] {}
    assert picked[..|picked|] == picked;
  }

  function AllIds(interest: seq<Candidate>, small: seq<Candidate>, hot: seq<Candidate>): set<nat> {
    Ids(interest) + Ids(small) + Ids(hot)
  }

  // What is left of the three pools.
  datatype Left = Left(interest: seq<Candidate>, small: seq<Candidate>, hot: seq<Candidate>)

  predicate AllOffered(interest: seq<Candidate>, small: seq<Candidate>, hot: seq<Candidate>, left: Left,
                       used: set<nat>) {
    SameOffer(interest, left.interest, used) && SameOffer(small, left.small, used) && SameOffer(hot, left.hot, used)
  }

  method FillSlot(q: Queue, ghost interest: seq<Candidate>, ghost small: seq<Candidate>, ghost hot: seq<Candidate>,
                  before: Left,
                  picked: seq<Candidate>, used: set<nat>, cfg: Config, cosine: Cosine)
    returns (item: Option<Candidate>, left: Left)
    requires AllOffered(interest, small, hot, before, used)
    ensures item.None? ==> SlotIsDry(q, interest, small, hot, used) && left == before
    ensures item.Some? ==> FillsSlot(q, interest, small, hot, picked, used, item.value, cfg, cosine)
    ensures item.Some? ==> item.value.video.id !in used && item.value.video.id in AllIds(interest, small, hot)
    ensures item.Some? ==> AllOffered(interest, small, hot, left, used + {item.value.video.id})
  {
    var rest;
    left := before;
    match q
    case Small =>
      item, rest := Take(small, left.small, picked, used, cfg, cosine);
      left := left.(small := rest);
      if item == None {
        item, rest := Take(interest, left.interest, picked, used, cfg, cosine);
        left := left.(interest := rest);
      }
    case Hot =>
      item, rest := Take(hot, left.hot, picked, used, cfg, cosine);
      left := left.(hot := rest);
      if item == None {
        item, rest := Take(interest, left.interest, picked, used, cfg, cosine);
        left := left.(interest := rest);
      }
    case Interest =>
      item, rest := Take(interest, left.interest, picked, used, cfg, cosine);
      left := left.(interest := rest);
      if item == None {
        item, rest := Take(small, left.small, picked, used, cfg, cosine);
        left := left.(small := rest);
      }
  }

  ghost predicate UnfilledAreDry(interest: seq<Candidate>, small: seq<Candidate>, hot: seq<Candidate>,
                                 plan: seq<Queue>, n: nat,
                                 slots: seq<nat>, used: set<nat>) {
    forall j :: 0 <= j < n && j < |plan| && j !in slots ==> SlotIsDry(plan[j], interest, small, hot, used)
  }

  lemma DryStaysDry(interest: seq<Candidate>, small: seq<Candidate>, hot: seq<Candidate>, plan: seq<Queue>, n: nat,
                    slots: seq<nat>, used: set<nat>, id: nat)
    requires UnfilledAreDry(interest, small, hot, plan, n, slots, used)
    ensures UnfilledAreDry(interest, small, hot, plan, n + 1, slots + [n], used + {id})
  {
    forall j | 0 <= j < n + 1 && j < |plan| && j !in slots + [n]
      ensures SlotIsDry(plan[j], interest, small, hot, used + {id}) {
      assert (slots + [n])[|slots|] == n;
      assert j !in slots;
      assert SlotIsDry(plan[j], interest, small, hot, used);
    }
  }

  // After n slots.
  ghost predicate Mixing(interest: seq<Candidate>, small: seq<Candidate>, hot: seq<Candidate>, cfg: Config,
                         cosine: Cosine,
                         seed: set<nat>, plan: seq<Queue>, n: nat, slots: seq<nat>, picked: seq<Candidate>) {
    && IsMix(interest, small, hot, cfg, cosine, seed, plan, slots, picked)
    && (forall k :: 0 <= k < |slots| ==> slots[k] < n)
    && IsFresh(picked, seed, AllIds(interest, small, hot))
    && UnfilledAreDry(interest, small, hot, plan, n, slots, seed + Ids(picked))
  }

  lemma SlotFilled(interest: seq<Candidate>, small: seq<Candidate>, hot: seq<Candidate>, cfg: Config, cosine: Cosine,
                   seed: set<nat>, plan: seq<Queue>, n: nat, slots: seq<nat>, picked: seq<Candidate>, c: Candidate)
    requires Mixing(interest, small, hot, cfg, cosine, seed, plan, n, slots, picked) && n < |plan|
    requires c.video.id !in seed + Ids(picked) && c.video.id in AllIds(interest, small, hot)
    requires FillsSlot(plan[n], interest, small, hot, picked, seed + Ids(picked), c, cfg, cosine)
    ensures Mixing(interest, small, hot, cfg, cosine, seed, plan, n + 1, slots + [n], picked + [c])
    ensures seed + Ids(picked + [c]) == seed + Ids(picked) + {c.video.id}
  {
    OneMoreSlot(interest, small, hot, cfg, cosine, seed, plan, slots, picked, n, c);
    OneMorePicked(picked, seed, AllIds(interest, small, hot), c);
    DryStaysDry(interest, small, hot, plan, n, slots, seed + Ids(picked), c.video.id);
    assert seed + Ids(picked + [c]) == seed + Ids(picked) + {c.video.id};
  }

  lemma SlotLeftEmpty(interest: seq<Candidate>, small: seq<Candidate>, hot: seq<Candidate>, cfg: Config, cosine: Cosine,
                      seed: set<nat>, plan: seq<Queue>, n: nat, slots: seq<nat>, picked: seq<Candidate>)
    requires Mixing(interest, small, hot, cfg, cosine, seed, plan, n, slots, picked) && n < |plan|
    requires SlotIsDry(plan[n], interest, small, hot, seed + Ids(picked))
    ensures Mixing(interest, small, hot, cfg, cosine, seed, plan, n + 1, slots, picked)
  {}

  // A page is what the slots of some plan with the right shares were filled with; a slot stays empty only when its
  // pools are dry.
  method MixExcluding(interest: seq<Candidate>, small: seq<Candidate>, hot: seq<Candidate>, limit: int, cfg: Config,
                      cosine: Cosine, seed: set<nat>)
    returns (picked: seq<Candidate>, ghost plan: seq<Queue>, ghost slots: seq<nat>)
    ensures |plan| == if limit <= 0 then 0 else limit
    ensures limit > 0 ==> var n := SmallSlots(limit, cfg.slotSmallRatio); Share(plan, Small) == if n > 0 then n else 0
    ensures limit > 0 ==> var n := SmallSlots(limit, cfg.slotSmallRatio); IsPlan(plan, n, HotSlots(limit, n))
    ensures Mixing(interest, small, hot, cfg, cosine, seed, plan, |plan|, slots, picked)
    ensures IsFresh(picked, seed, AllIds(interest, small, hot))
  {
    var kinds := Plan(limit, cfg.slotSmallRatio);
    plan := kinds;
    picked, slots := [], [];
    var used := seed;
    var left := Left(interest, small, hot);
    for i := 0 to |kinds|
      invariant Mixing(interest, small, hot, cfg, cosine, seed, plan, i, slots, picked)
      invariant used == seed + Ids(picked) && AllOffered(interest, small, hot, left, used)
    {
      var item;
      item, left := FillSlot(kinds[i], interest, small, hot, left, picked, used, cfg, cosine);
      if item.Some? {
        SlotFilled(interest, small, hot, cfg, cosine, seed, plan, i, slots, picked, item.value);
        picked := picked + [item.value];
        used := used + {item.value.video.id};
        slots := slots + [i];
      } else {
        SlotLeftEmpty(interest, small, hot, cfg, cosine, seed, plan, i, slots, picked);
      }
    }
  }

  lemma DryMeansAllUsed(q: Queue, interest: seq<Candidate>, small: seq<Candidate>, hot: seq<Candidate>, used: set<nat>)
    requires SlotIsDry(q, interest, small, hot, used)
    ensures Ids(interest) <= used
  {}

  lemma DrySlotsCount(interest: seq<Candidate>, small: seq<Candidate>, hot: seq<Candidate>, seed: set<nat>,
                      plan: seq<Queue>, slots: seq<nat>, picked: seq<Candidate>)
    requires |slots| == |picked| && Ascending(slots) && forall k :: 0 <= k < |slots| ==> slots[k] < |plan|
    requires IsFresh(picked, seed, Ids(interest))
    requires UnfilledAreDry(interest, small, hot, plan, |plan|, slots, seed + Ids(picked))
    ensures |picked| == if |plan| <= |Ids(interest) - seed| then |plan| else |Ids(interest) - seed|
  {
    SizeOfIds(picked);
    SubsetCard(Ids(picked), Ids(interest) - seed);
    SlotsBounded(slots, |plan|);
    if |picked| < |plan| {
      var j := FreeSlot(slots, |plan|);
      DryMeansAllUsed(plan[j], interest, small, hot, seed + Ids(picked));
      SubsetCard(Ids(interest) - seed, Ids(picked));
    }
  }

  // When the interest pool holds every candidate, the page is full unless everything has been used.
  lemma MixIsComplete(interest: seq<Candidate>, small: seq<Candidate>, hot: seq<Candidate>, cfg: Config, cosine: Cosine,
                      seed: set<nat>, plan: seq<Queue>, slots: seq<nat>, picked: seq<Candidate>)
    requires Ids(small) <= Ids(interest) && Ids(hot) <= Ids(interest)
    requires Mixing(interest, small, hot, cfg, cosine, seed, plan, |plan|, slots, picked)
    ensures |picked| == if |plan| <= |Ids(interest) - seed| then |plan| else |Ids(interest) - seed|
  {
    assert AllIds(interest, small, hot) == Ids(interest);
    DrySlotsCount(interest, small, hot, seed, plan, slots, picked);
  }

  lemma {:induction false} SizeOfIds(picked: seq<Candidate>)
    requires IdsUnique(picked)
    ensures |Ids(picked)| == |picked|
  {
    if picked != [] {
      var front, last := picked[..|picked| - 1], picked[|picked| - 1];
      SizeOfIds(front);
      assert picked == front + [last];
      assert Ids(picked) == Ids(front) + {last.video.id};
    }
  }

  lemma {:induction false} SlotsBounded(slots: seq<nat>, n: nat)
    requires Ascending(slots) && forall k :: 0 <= k < |slots| ==> slots[k] < n
    ensures |slots| <= n
    ensures forall k :: 0 <= k < |slots| ==> slots[k] >= k
  {
    if slots != [] {
      var last := slots[|slots| - 1];
      SlotsBounded(slots[..|slots| - 1], last);
    }
  }

  lemma {:induction false} FreeSlot(slots: seq<nat>, n: nat) returns (j: nat)
    requires Ascending(slots) && |slots| < n
    ensures j < n && j !in slots
  {
    if slots == [] || slots[|slots| - 1] < n - 1 {
      j := n - 1;
      forall k | 0 <= k < |slots| ensures slots[k] != j {
        assert k == |slots| - 1 || slots[k] < slots[|slots| - 1];
      }
    } else if slots[|slots| - 1] >= n {
      j := FreeSlot(slots[..|slots| - 1], n);
      assert forall k :: 0 <= k < |slots| - 1 ==> slots[k] == slots[..|slots| - 1][k];
    } else {
      j := FreeSlot(slots[..|slots| - 1], n - 1);
      assert forall k :: 0 <= k < |slots| - 1 ==> slots[k] == slots[..|slots| - 1][k];
    }
  }
}
