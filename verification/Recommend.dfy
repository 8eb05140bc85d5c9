/**
 The recommendation page (recommend/service.go pickByTagsOrDefault, recommend/tags.go, mixer.go splitQueues): matches of
 the reader's tags first, the mixer for the rest.
*/
module Recommend {
  import opened Recency
  import opened Sorting
  import opened TopN
  import opened SlotPlan
  import opened Mixer

  // ---------------------------------------------------------------- the three queues

  predicate ByTime(x: Candidate, y: Candidate) {
    x.video.created > y.video.created || (x.video.created == y.video.created && x.video.id >= y.video.id)
  }

  predicate ByHot(x: Candidate, y: Candidate) {
    x.hot > y.hot || (x.hot == y.hot && x.video.id >= y.video.id)
  }

  predicate ByRel(x: Candidate, y: Candidate) {
    x.rel > y.rel || (x.rel == y.rel && x.video.id >= y.video.id)
  }

  // What a reader with an interest vector may like: candidates with a vector, the closer the more relevant.
  function Liked(cands: seq<Candidate>, userVec: seq<real>, cosine: Cosine): seq<Candidate> {
    if cands == [] then []
    else
      var n := |cands| - 1;
      var c := cands[n];
      if c.vector == [] then Liked(cands[..n], userVec, cosine)
      else
        var near := cosine(userVec, c.vector);
        Liked(cands[..n], userVec, cosine) + [c.(rel := if near > 0.0 then near else 0.0)]
  }

  function SmallOnes(cands: seq<Candidate>, max: int): seq<Candidate> {
    if cands == [] then []
    else
      var n := |cands| - 1;
      if cands[n].followers < max then SmallOnes(cands[..n], max) + [cands[n]] else SmallOnes(cands[..n], max)
  }

  predicate SameButRel(a: seq<Candidate>, b: seq<Candidate>) {
    |a| == |b| && forall i :: 0 <= i < |a| ==> a[i] == b[i].(rel := a[i].rel)
  }

  // 1 at the head, falling evenly towards 0.
  predicate RankedRel(cands: seq<Candidate>) {
    forall i :: 0 <= i < |cands| ==> cands[i].rel == 1.0 - i as real / |cands| as real
  }

  method AssignRankRel(cands: seq<Candidate>) returns (r: seq<Candidate>)
    ensures SameButRel(r, cands) && RankedRel(r)
  {
    r := cands;
    for i := 0 to |cands|
      invariant SameButRel(r, cands) && forall j :: i <= j < |r| ==> r[j] == cands[j]
      invariant forall j :: 0 <= j < i ==> r[j].rel == 1.0 - j as real / |cands| as real
    {
      r := r[i := r[i].(rel := 1.0 - i as real / |cands| as real)];
    }
  }

  // 0 for the coldest, 1 for the hottest, in proportion between; 1 for all when there is no spread.
  ghost predicate HotRelOk(cands: seq<Candidate>, lo: int, hi: int) {
    && (exists i :: 0 <= i < |cands| && cands[i].hot == lo) && (exists i :: 0 <= i < |cands| && cands[i].hot == hi)
    && forall i :: 0 <= i < |cands| ==>
         && lo <= cands[i].hot <= hi
         && cands[i].rel == if lo == hi then 1.0 else (cands[i].hot - lo) as real / (hi - lo) as real
  }

  method AssignHotRel(cands: seq<Candidate>) returns (r: seq<Candidate>)
    ensures SameButRel(r, cands)
    ensures cands != [] ==> exists lo, hi :: HotRelOk(r, lo, hi)
  {
    r := cands;
    if |cands| == 0 {
      return;
    }
    var lo, hi := cands[0].hot, cands[0].hot;
    for i := 1 to |cands|
      invariant forall j :: 0 <= j < i ==> lo <= cands[j].hot <= hi
      invariant exists j :: 0 <= j < i && cands[j].hot == lo
      invariant exists j :: 0 <= j < i && cands[j].hot == hi
    {
      if cands[i].hot < lo {
        lo := cands[i].hot;
      }
      if cands[i].hot > hi {
        hi := cands[i].hot;
      }
    }
    for i := 0 to |cands|
      invariant SameButRel(r, cands) && forall j :: i <= j < |r| ==> r[j] == cands[j]
      invariant forall j :: 0 <= j < i ==>
                  r[j].rel == if lo == hi then 1.0 else (cands[j].hot - lo) as real / (hi - lo) as real
    {
      r := r[i := r[i].(rel := if hi - lo <= 0 then 1.0 else (r[i].hot - lo) as real / (hi - lo) as real)];
    }
    assert forall j :: 0 <= j < |cands| ==> r[j].hot == cands[j].hot;
    assert HotRelOk(r, lo, hi);
  }

  ghost predicate QueuesOf(cands: seq<Candidate>, userVec: seq<real>, cfg: Config, cosine: Cosine,
                           interest: seq<Candidate>, small: seq<Candidate>, hot: seq<Candidate>) {
    && (if userVec == [] then SameButRel(interest, Sort(cands, ByTime)) && RankedRel(interest)
        else interest == Sort(Liked(cands, userVec, cosine), ByRel))
    && SameButRel(small, Sort(SmallOnes(cands, cfg.smallMaxFollowers), ByTime)) && RankedRel(small)
    && SameButRel(hot, Sort(cands, ByHot)) && (cands != [] ==> exists lo, hi :: HotRelOk(hot, lo, hi))
  }

  // By closeness to the interest vector, or by time over everyone when there is none; by time over small creators; by
  // heat over everyone.
  method SplitQueues(cands: seq<Candidate>, userVec: seq<real>, cfg: Config, cosine: Cosine)
    returns (interest: seq<Candidate>, small: seq<Candidate>, hot: seq<Candidate>)
    ensures QueuesOf(cands, userVec, cfg, cosine, interest, small, hot)
  {
    interest, small, hot := [], [], [];
    for i := 0 to |cands|
      invariant small == SmallOnes(cands[..i], cfg.smallMaxFollowers) && hot == cands[..i]
      invariant userVec != [] ==> interest == Liked(cands[..i], userVec, cosine)
    {
      assert cands[..i + 1][..i] == cands[..i];
      if |userVec| > 0 && |cands[i].vector| > 0 {
        var near := cosine(userVec, cands[i].vector);
        interest := interest + [cands[i].(rel := if near > 0.0 then near else 0.0)];
      }
      if cands[i].followers < cfg.smallMaxFollowers {
        small := small + [cands[i]];
      }
      hot := hot + [cands[i]];
    }
    assert cands[..|cands|] == cands;
    if |userVec| == 0 {
      interest := AssignRankRel(Sort(cands, ByTime));
    } else {
      interest := Sort(interest, ByRel);
    }
    small := AssignRankRel(Sort(small, ByTime));
    hot := AssignHotRel(Sort(hot, ByHot));
  }

  lemma SameIds(a: seq<Candidate>, b: seq<Candidate>)
    requires SameButRel(a, b)
    ensures Ids(a) == Ids(b)
  {
    forall c | c in a ensures c.video.id in Ids(b) {
      var i :| 0 <= i < |a| && a[i] == c;
      assert b[i] in b;
    }
    forall c | c in b ensures c.video.id in Ids(a) {
      var i :| 0 <= i < |b| && b[i] == c;
      assert a[i] in a;
    }
  }

  lemma SortedIds(cands: seq<Candidate>, le: (Candidate, Candidate) -> bool)
    ensures Ids(Sort(cands, le)) == Ids(cands)
  {
    SortMembers(cands, le);
  }

  lemma {:induction false} SmallOnesAre(cands: seq<Candidate>, max: int)
    ensures forall c :: c in SmallOnes(cands, max) <==> c in cands && c.followers < max
  {
    if cands != [] {
      var n := |cands| - 1;
      SmallOnesAre(cands[..n], max);
      assert cands == cands[..n] + [cands[n]];
    }
  }

  function WithVector(cands: seq<Candidate>): set<nat> {
    set c | c in cands && c.vector != [] :: c.video.id
  }

  lemma {:induction false} LikedIds(cands: seq<Candidate>, userVec: seq<real>, cosine: Cosine)
    ensures Ids(Liked(cands, userVec, cosine)) == WithVector(cands)
  {
    if cands != [] {
      var n := |cands| - 1;
      LikedIds(cands[..n], userVec, cosine);
      assert cands == cands[..n] + [cands[n]];
      assert WithVector(cands) == WithVector(cands[..n]) + if cands[n].vector == [] then {} else {cands[n].video.id};
      if cands[n].vector != [] {
        IdsAppend(Liked(cands[..n], userVec, cosine), Liked(cands, userVec, cosine)[|Liked(cands, userVec, cosine)| - 1]);
      }
    }
  }

  lemma IdsAppend(cands: seq<Candidate>, c: Candidate)
    ensures Ids(cands + [c]) == Ids(cands) + {c.video.id}
  {
    assert c in cands + [c];
    forall x | x in cands ensures x in cands + [c] {}
  }

  lemma InterestIds(cands: seq<Candidate>, userVec: seq<real>, cosine: Cosine, interest: seq<Candidate>)
    requires if userVec == [] then SameButRel(interest, Sort(cands, ByTime))
             else interest == Sort(Liked(cands, userVec, cosine), ByRel)
    ensures Ids(interest) == if userVec == [] then Ids(cands) else WithVector(cands)
  {
    if userVec == [] {
      SameIds(interest, Sort(cands, ByTime));
      SortedIds(cands, ByTime);
    } else {
      SortedIds(Liked(cands, userVec, cosine), ByRel);
      LikedIds(cands, userVec, cosine);
    }
  }

  // The interest queue holds every candidate, with an interest vector those that have a vector themselves; the other
  // two hold nothing but candidates.
  lemma QueuesOverOneSet(cands: seq<Candidate>, userVec: seq<real>, cfg: Config, cosine: Cosine,
                         interest: seq<Candidate>, small: seq<Candidate>, hot: seq<Candidate>)
    requires QueuesOf(cands, userVec, cfg, cosine, interest, small, hot)
    ensures Ids(interest) == if userVec == [] then Ids(cands) else WithVector(cands)
    ensures Ids(hot) == Ids(cands) && Ids(small) <= Ids(cands)
  {
    InterestIds(cands, userVec, cosine, interest);
    SameIds(hot, Sort(cands, ByHot));
    SameIds(small, Sort(SmallOnes(cands, cfg.smallMaxFollowers), ByTime));
    SortedIds(cands, ByHot);
    SortedIds(SmallOnes(cands, cfg.smallMaxFollowers), ByTime);
    SmallOnesAre(cands, cfg.smallMaxFollowers);
  }

  // What is in the interest queue of a reader with a vector: the candidates that have one, each with its closeness as
  // relevance, or none if it points away.
  lemma {:induction false} LikedAre(cands: seq<Candidate>, userVec: seq<real>, cosine: Cosine)
    ensures forall c :: c in Liked(cands, userVec, cosine) <==>
              exists x :: x in cands && x.vector != [] && c == x.(rel := c.rel)
                          && c.rel >= 0.0 && c.rel >= cosine(userVec, x.vector)
                          && (c.rel == 0.0 || c.rel == cosine(userVec, x.vector))
  {
    if cands != [] {
      var n := |cands| - 1;
      LikedAre(cands[..n], userVec, cosine);
      assert cands == cands[..n] + [cands[n]];
    }
  }

  // The queues are in the order their names promise; among equals the larger id comes first.
  lemma QueuesInOrder(cands: seq<Candidate>, userVec: seq<real>, cfg: Config, cosine: Cosine,
                      interest: seq<Candidate>, small: seq<Candidate>, hot: seq<Candidate>)
    requires QueuesOf(cands, userVec, cfg, cosine, interest, small, hot)
    ensures if userVec == [] then NewestFirst(interest) else MostRelevantFirst(interest)
    ensures NewestFirst(small) && HottestFirst(hot)
  {
    if userVec == [] {
      TimeOrder(interest, cands);
    } else {
      SortSorted(Liked(cands, userVec, cosine), ByRel);
      assert Sorted(interest, ByRel);
    }
    HotOrder(hot, cands);
    TimeOrder(small, SmallOnes(cands, cfg.smallMaxFollowers));
  }

  lemma TimeOrder(queue: seq<Candidate>, cands: seq<Candidate>)
    requires SameButRel(queue, Sort(cands, ByTime))
    ensures NewestFirst(queue)
  {
    SortSorted(cands, ByTime);
    var s := Sort(cands, ByTime);
    forall i, j | 0 <= i < j < |queue| ensures ByTime(queue[i], queue[j]) {
      assert ByTime(s[i], s[j]);
    }
  }

  lemma HotOrder(queue: seq<Candidate>, cands: seq<Candidate>)
    requires SameButRel(queue, Sort(cands, ByHot))
    ensures HottestFirst(queue)
  {
    SortSorted(cands, ByHot);
    var s := Sort(cands, ByHot);
    forall i, j | 0 <= i < j < |queue| ensures ByHot(queue[i], queue[j]) {
      assert ByHot(s[i], s[j]);
    }
  }

  ghost predicate NewestFirst(s: seq<Candidate>) {
    forall i, j :: 0 <= i < j < |s| ==>
      && s[i].video.created >= s[j].video.created
      && (s[i].video.created == s[j].video.created ==> s[i].video.id >= s[j].video.id)
  }

  ghost predicate HottestFirst(s: seq<Candidate>) {
    forall i, j :: 0 <= i < j < |s| ==>
      s[i].hot >= s[j].hot && (s[i].hot == s[j].hot ==> s[i].video.id >= s[j].video.id)
  }

  ghost predicate MostRelevantFirst(s: seq<Candidate>) {
    forall i, j :: 0 <= i < j < |s| ==>
      s[i].rel >= s[j].rel && (s[i].rel == s[j].rel ==> s[i].video.id >= s[j].video.id)
  }

  lemma SmallQueueIs(cands: seq<Candidate>, max: int, small: seq<Candidate>)
    requires SameButRel(small, Sort(SmallOnes(cands, max), ByTime))
    ensures forall c :: c in small ==> c.followers < max
    ensures forall d :: d in cands && d.followers < max ==> d.video.id in Ids(small)
  {
    var s := Sort(SmallOnes(cands, max), ByTime);
    SmallOnesAre(cands, max);
    SortMembers(SmallOnes(cands, max), ByTime);
    forall c | c in small ensures c.followers < max {
      var i :| 0 <= i < |small| && small[i] == c;
      assert s[i] in s;
    }
    SameIds(small, s);
  }

  // A slot for small creators shows one as long as any of them is unused.
  lemma SmallSlotsShowSmallCreators(cands: seq<Candidate>, userVec: seq<real>, cfg: Config, cosine: Cosine,
                                    interest: seq<Candidate>, small: seq<Candidate>, hot: seq<Candidate>,
                                    seed: set<nat>, plan: seq<Queue>, slots: seq<nat>, picked: seq<Candidate>,
                                    k: nat, d: Candidate)
    requires QueuesOf(cands, userVec, cfg, cosine, interest, small, hot)
    requires IsMix(interest, small, hot, cfg, cosine, seed, plan, slots, picked)
    requires k < |picked| && plan[slots[k]] == Small
    requires d in cands && d.followers < cfg.smallMaxFollowers && d.video.id !in seed + Ids(picked[..k])
    ensures picked[k].followers < cfg.smallMaxFollowers
  {
    SmallQueueIs(cands, cfg.smallMaxFollowers, small);
    var used := seed + Ids(picked[..k]);
    assert !Exhausted(small, used);
    assert FillsSlot(Small, interest, small, hot, picked[..k], used, picked[k], cfg, cosine);
    assert picked[k] in small;
  }

  // ---------------------------------------------------------------- interest tags

  // Later tags are newer and weigh more; a repeated tag counts at its last place.
  function Weight(tags: seq<string>, key: string -> string, k: string): (w: nat)
    ensures w <= |tags|
  {
    if tags == [] then 0
    else if key(tags[|tags| - 1]) == k then |tags|
    else Weight(tags[..|tags| - 1], key, k)
  }

  // The weight of the best of a video's tags, 0 when none matches.
  function TagScore(videoTags: seq<string>, tags: seq<string>, key: string -> string): nat {
    if videoTags == [] then 0
    else
      var n := |videoTags| - 1;
      var score := TagScore(videoTags[..n], tags, key);
      var k := key(videoTags[n]);
      if k != "" && Weight(tags, key, k) > score then Weight(tags, key, k) else score
  }

  datatype Scored = Scored(c: Candidate, score: nat)

  predicate ByTag(x: Scored, y: Scored) {
    x.score > y.score || (x.score == y.score && ByTime(x.c, y.c))
  }

  function Matches(cands: seq<Candidate>, tags: seq<string>, key: string -> string): seq<Scored> {
    if cands == [] then []
    else
      var n := |cands| - 1;
      var r := Matches(cands[..n], tags, key);
      var score := TagScore(cands[n].video.tags, tags, key);
      if score > 0 then r + [Scored(cands[n], score)] else r
  }

  function Candidates(ranked: seq<Scored>): (r: seq<Candidate>)
    ensures |r| == |ranked| && forall i :: 0 <= i < |r| ==> r[i] == ranked[i].c
  {
    if ranked == [] then [] else Candidates(ranked[..|ranked| - 1]) + [ranked[|ranked| - 1].c]
  }

  function Tagged(cands: seq<Candidate>, tags: seq<string>, key: string -> string): seq<Candidate> {
    Candidates(Sort(Matches(cands, tags, key), ByTag))
  }

  predicate IsWeights(weight: map<string, nat>, tags: seq<string>, key: string -> string, k: string) {
    && (k in weight ==> k != "" && weight[k] == Weight(tags, key, k) > 0)
    && (k !in weight ==> k == "" || Weight(tags, key, k) == 0)
  }

  method Weights(tags: seq<string>, key: string -> string) returns (weight: map<string, nat>)
    ensures forall k :: IsWeights(weight, tags, key, k)
  {
    weight := map[];
    for i := 0 to |tags|
      invariant forall k :: IsWeights(weight, tags[..i], key, k)
    {
      assert tags[..i + 1][..i] == tags[..i];
      var k := key(tags[i]);
      ghost var before, seen := weight, tags[..i + 1];
      if k != "" {
        weight := weight[k := i + 1];
      }
      forall j ensures IsWeights(weight, seen, key, j) {
        assert IsWeights(before, seen[..i], key, j);
      }
    }
    assert tags[..|tags|] == tags;
  }

  method ScoreByTags(videoTags: seq<string>, weight: map<string, nat>, tags: seq<string>, key: string -> string)
    returns (score: nat)
    requires forall k :: IsWeights(weight, tags, key, k)
    ensures score == TagScore(videoTags, tags, key)
  {
    score := 0;
    for i := 0 to |videoTags|
      invariant score == TagScore(videoTags[..i], tags, key)
    {
      assert videoTags[..i + 1][..i] == videoTags[..i];
      var k := key(videoTags[i]);
      assert IsWeights(weight, tags, key, k);
      if k in weight && weight[k] > score {
        score := weight[k];
      }
    }
    assert videoTags[..|videoTags|] == videoTags;
  }

  method MatchInterestTags(cands: seq<Candidate>, tags: seq<string>, key: string -> string) returns (r: seq<Candidate>)
    ensures r == Tagged(cands, tags, key) && NewestTagsFirst(r, cands, tags, key)
  {
    TaggedAre(cands, tags, key);
    var weight := Weights(tags, key);
    var ranked := [];
    for i := 0 to |cands|
      invariant ranked == Matches(cands[..i], tags, key)
    {
      assert cands[..i + 1][..i] == cands[..i];
      var score := ScoreByTags(cands[i].video.tags, weight, tags, key);
      if score > 0 {
        ranked := ranked + [Scored(cands[i], score)];
      }
    }
    assert cands[..|cands|] == cands;
    ranked := Sort(ranked, ByTag);
    r := Candidates(ranked);
  }

  lemma {:induction false} MatchesAre(cands: seq<Candidate>, tags: seq<string>, key: string -> string)
    ensures forall m :: m in Matches(cands, tags, key) <==>
              m.c in cands && m.score == TagScore(m.c.video.tags, tags, key) && m.score > 0
    ensures IdsUnique(cands) ==> forall i, j :: 0 <= i < j < |Matches(cands, tags, key)| ==>
              Matches(cands, tags, key)[i].c.video.id != Matches(cands, tags, key)[j].c.video.id
  {
    if cands != [] {
      var n := |cands| - 1;
      MatchesAre(cands[..n], tags, key);
      assert cands == cands[..n] + [cands[n]];
      forall m | m in Matches(cands[..n], tags, key) && IdsUnique(cands) ensures m.c.video.id != cands[n].video.id {
        assert m.c in cands[..n];
        var i :| 0 <= i < n && cands[i] == m.c;
      }
    }
  }

  lemma {:induction false} UniqueByCount(cands: seq<Candidate>)
    ensures |Ids(cands)| <= |cands|
    ensures |Ids(cands)| == |cands| ==> IdsUnique(cands)
  {
    if cands != [] {
      var n := |cands| - 1;
      var front, last := cands[..n], cands[n];
      UniqueByCount(front);
      assert cands == front + [last];
      assert Ids(cands) == Ids(front) + {last.video.id};
      if last.video.id !in Ids(front) {
        assert forall i :: 0 <= i < n ==> cands[i] in front;
      }
    }
  }

  lemma {:induction false} CandidatesOfMatches(cands: seq<Candidate>, tags: seq<string>, key: string -> string)
    requires IdsUnique(cands)
    ensures IdsUnique(Candidates(Matches(cands, tags, key)))
  {
    MatchesAre(cands, tags, key);
  }

  lemma CandidatesIds(a: seq<Scored>, b: seq<Scored>)
    requires forall m :: m in a <==> m in b
    ensures Ids(Candidates(a)) <= Ids(Candidates(b))
  {
    forall c | c in Candidates(a) ensures c in Candidates(b) {
      var i :| 0 <= i < |a| && Candidates(a)[i] == c;
      assert a[i] in b;
      var j :| 0 <= j < |b| && b[j] == a[i];
      assert Candidates(b)[j] == c;
    }
  }

  lemma TaggedUnique(cands: seq<Candidate>, tags: seq<string>, key: string -> string)
    requires IdsUnique(cands)
    ensures IdsUnique(Tagged(cands, tags, key))
  {
    var matches := Matches(cands, tags, key);
    var ranked := Sort(matches, ByTag);
    SortMembers(matches, ByTag);
    CandidatesOfMatches(cands, tags, key);
    CandidatesIds(matches, ranked);
    CandidatesIds(ranked, matches);
    SizeOfIds(Candidates(matches));
    UniqueByCount(Candidates(ranked));
    assert Ids(Candidates(ranked)) == Ids(Candidates(matches));
  }

  lemma TaggedByScore(cands: seq<Candidate>, tags: seq<string>, key: string -> string)
    ensures var r := Tagged(cands, tags, key);
            && (forall c :: c in r <==> c in cands && TagScore(c.video.tags, tags, key) > 0)
            && forall i, j :: 0 <= i < j < |r| ==>
                 ByTag(Scored(r[i], TagScore(r[i].video.tags, tags, key)),
                       Scored(r[j], TagScore(r[j].video.tags, tags, key)))
  {
    var matches := Matches(cands, tags, key);
    var ranked := Sort(matches, ByTag);
    var r := Candidates(ranked);
    MatchesAre(cands, tags, key);
    SortMembers(matches, ByTag);
    SortSorted(matches, ByTag);
    forall i | 0 <= i < |r| ensures ranked[i] == Scored(r[i], TagScore(r[i].video.tags, tags, key)) && r[i] in cands {
      assert ranked[i] in ranked;
    }
    forall c | c in cands && TagScore(c.video.tags, tags, key) > 0 ensures c in r {
      var m := Scored(c, TagScore(c.video.tags, tags, key));
      assert m in ranked;
      var i :| 0 <= i < |ranked| && ranked[i] == m;
      assert r[i] == c;
    }
    forall i, j | 0 <= i < j < |r|
      ensures ByTag(Scored(r[i], TagScore(r[i].video.tags, tags, key)),
                    Scored(r[j], TagScore(r[j].video.tags, tags, key))) {
      assert ByTag(ranked[i], ranked[j]);
    }
  }

  // Some tag of the video has the key of one of the reader's tags from place i on; later tags are newer.
  ghost predicate Knows(videoTags: seq<string>, tags: seq<string>, key: string -> string, i: nat) {
    exists a, j :: 0 <= a < |videoTags| && i <= j < |tags| && key(videoTags[a]) == key(tags[j]) != ""
  }

  lemma {:induction false} WeightReaches(tags: seq<string>, key: string -> string, k: string, i: nat)
    ensures Weight(tags, key, k) > i <==> exists j :: i <= j < |tags| && key(tags[j]) == k
  {
    if tags != [] {
      var n := |tags| - 1;
      if key(tags[n]) != k {
        WeightReaches(tags[..n], key, k, i);
        assert tags == tags[..n] + [tags[n]];
      }
    }
  }

  lemma {:induction false} ScoreReaches(videoTags: seq<string>, tags: seq<string>, key: string -> string, i: nat)
    ensures TagScore(videoTags, tags, key) > i <==> Knows(videoTags, tags, key, i)
  {
    if videoTags != [] {
      var n := |videoTags| - 1;
      ScoreReaches(videoTags[..n], tags, key, i);
      WeightReaches(tags, key, key(videoTags[n]), i);
      KnowsOneMore(videoTags, tags, key, i);
    }
  }

  lemma KnowsOneMore(videoTags: seq<string>, tags: seq<string>, key: string -> string, i: nat)
    requires videoTags != []
    ensures var n := |videoTags| - 1;
            Knows(videoTags, tags, key, i) <==>
              || Knows(videoTags[..n], tags, key, i)
              || (key(videoTags[n]) != "" && exists j :: i <= j < |tags| && key(tags[j]) == key(videoTags[n]))
  {
    var n := |videoTags| - 1;
    if Knows(videoTags[..n], tags, key, i) {
      var a, j :| 0 <= a < n && i <= j < |tags| && key(videoTags[..n][a]) == key(tags[j]) != "";
      assert videoTags[a] == videoTags[..n][a];
    }
    if Knows(videoTags, tags, key, i) {
      var a, j :| 0 <= a < |videoTags| && i <= j < |tags| && key(videoTags[a]) == key(tags[j]) != "";
      assert a < n ==> videoTags[..n][a] == videoTags[a];
    }
  }

  // Said on the tags alone: exactly the candidates that share a tag with the reader; no video shares a newer one than a
  // video before it; and videos that reach equally far stand newest first.
  ghost predicate NewestTagsFirst(r: seq<Candidate>, cands: seq<Candidate>, tags: seq<string>, key: string -> string) {
    && (forall c :: c in r <==> c in cands && Knows(c.video.tags, tags, key, 0))
    && (forall p, q, i: nat :: 0 <= p < q < |r| && Knows(r[q].video.tags, tags, key, i)
                               ==> Knows(r[p].video.tags, tags, key, i))
    && (forall p, q :: 0 <= p < q < |r| && ReachesNoFurther(r[p], r[q], tags, key) ==>
          && r[p].video.created >= r[q].video.created
          && (r[p].video.created == r[q].video.created ==> r[p].video.id >= r[q].video.id))
  }

  ghost predicate ReachesNoFurther(x: Candidate, y: Candidate, tags: seq<string>, key: string -> string) {
    forall i: nat :: Knows(x.video.tags, tags, key, i) ==> Knows(y.video.tags, tags, key, i)
  }

  lemma BehindKnowsNoMore(r: seq<Candidate>, tags: seq<string>, key: string -> string, p: nat, q: nat, i: nat)
    requires p < q < |r| && Knows(r[q].video.tags, tags, key, i)
    requires ByTag(Scored(r[p], TagScore(r[p].video.tags, tags, key)), Scored(r[q], TagScore(r[q].video.tags, tags, key)))
    ensures Knows(r[p].video.tags, tags, key, i)
  {
    ScoreReaches(r[q].video.tags, tags, key, i);
    ScoreReaches(r[p].video.tags, tags, key, i);
  }

  lemma EquallyFarIsByTime(r: seq<Candidate>, tags: seq<string>, key: string -> string, p: nat, q: nat)
    requires p < q < |r| && TagScore(r[p].video.tags, tags, key) > 0
    requires ReachesNoFurther(r[p], r[q], tags, key)
    requires ByTag(Scored(r[p], TagScore(r[p].video.tags, tags, key)), Scored(r[q], TagScore(r[q].video.tags, tags, key)))
    ensures ByTime(r[p], r[q])
  {
    var i := TagScore(r[p].video.tags, tags, key) - 1;
    ScoreReaches(r[p].video.tags, tags, key, i);
    ScoreReaches(r[q].video.tags, tags, key, i);
  }

  lemma TaggedAre(cands: seq<Candidate>, tags: seq<string>, key: string -> string)
    ensures NewestTagsFirst(Tagged(cands, tags, key), cands, tags, key)
  {
    var r := Tagged(cands, tags, key);
    TaggedByScore(cands, tags, key);
    forall c: Candidate ensures TagScore(c.video.tags, tags, key) > 0 <==> Knows(c.video.tags, tags, key, 0) {
      ScoreReaches(c.video.tags, tags, key, 0);
    }
    forall p, q, i: nat | 0 <= p < q < |r| && Knows(r[q].video.tags, tags, key, i)
      ensures Knows(r[p].video.tags, tags, key, i) {
      BehindKnowsNoMore(r, tags, key, p, q, i);
    }
    forall p, q | 0 <= p < q < |r| && ReachesNoFurther(r[p], r[q], tags, key) ensures ByTime(r[p], r[q]) {
      assert r[p] in r;
      EquallyFarIsByTime(r, tags, key, p, q);
    }
  }

  // Two matches of which one carries a newer tag of the reader's: it stands before the other.
  lemma NewerTagGoesFirst(r: seq<Candidate>, cands: seq<Candidate>, tags: seq<string>, key: string -> string,
                          x: nat, y: nat, i: nat)
    requires NewestTagsFirst(r, cands, tags, key) && x < |r| && y < |r| && i < |tags|
    requires exists a :: 0 <= a < |r[x].video.tags| && key(r[x].video.tags[a]) == key(tags[i]) != ""
    requires forall b, j :: 0 <= b < |r[y].video.tags| && i <= j < |tags| ==> key(r[y].video.tags[b]) != key(tags[j])
    ensures x < y
  {
    assert Knows(r[x].video.tags, tags, key, i);
    assert !Knows(r[y].video.tags, tags, key, i);
  }

  // ---------------------------------------------------------------- the page

  method LeftoverAny(cands: seq<Candidate>, used: set<nat>) returns (left: bool)
    ensures left <==> !(Ids(cands) <= used)
  {
    for i := 0 to |cands|
      invariant forall j :: 0 <= j < i ==> cands[j].video.id in used
    {
      if cands[i].video.id !in used {
        assert cands[i] in cands && cands[i].video.id in Ids(cands);
        return true;
      }
    }
    return false;
  }

  lemma JoinFresh(a: seq<Candidate>, b: seq<Candidate>, all: set<nat>)
    requires IsFresh(a, {}, all) && IsFresh(b, Ids(a), all)
    ensures IsFresh(a + b, {}, all) && Ids(a + b) == Ids(a) + Ids(b)
  {
    var r := a + b;
    assert forall c :: c in r <==> c in a || c in b;
    forall i, j | 0 <= i < j < |r| ensures r[i].video.id != r[j].video.id {
      if i < |a| <= j {
        assert r[i].video.id in Ids(a) by { assert a[i] in a; }
        assert r[j].video.id in Ids(b) by { assert b[j - |a|] in b; }
      }
    }
  }

  lemma NotTaken(cands: seq<Candidate>, taken: seq<Candidate>)
    requires IdsUnique(cands) && IsFresh(taken, {}, Ids(cands))
    ensures |Ids(cands) - Ids(taken)| == |cands| - |taken|
  {
    SizeOfIds(cands);
    SizeOfIds(taken);
    assert Ids(cands) == (Ids(cands) - Ids(taken)) + Ids(taken);
  }

  // How the mixer came to its part of a page.
  datatype Mixed = Mixed(interest: seq<Candidate>, small: seq<Candidate>, hot: seq<Candidate>, plan: seq<Queue>,
                         slots: seq<nat>)

  ghost predicate IsMixed(m: Mixed, cands: seq<Candidate>, cfg: Config, cosine: Cosine, taken: set<nat>, open: nat,
                          extra: seq<Candidate>) {
    && QueuesOf(cands, [], cfg, cosine, m.interest, m.small, m.hot) && |m.plan| == open
    && Mixing(m.interest, m.small, m.hot, cfg, cosine, taken, m.plan, open, m.slots, extra)
  }

  // The mixer over the three queues fills what the tags left open.
  method Extra(cands: seq<Candidate>, open: nat, cfg: Config, cosine: Cosine, taken: seq<Candidate>)
    returns (extra: seq<Candidate>, ghost m: Mixed)
    requires IdsUnique(cands) && IsFresh(taken, {}, Ids(cands)) && open > 0
    ensures IsFresh(extra, Ids(taken), Ids(cands))
    ensures |extra| == if open <= |cands| - |taken| then open else |cands| - |taken|
    ensures IsMixed(m, cands, cfg, cosine, Ids(taken), open, extra)
  {
    var interest, small, hot := SplitQueues(cands, [], cfg, cosine);
    QueuesOverOneSet(cands, [], cfg, cosine, interest, small, hot);
    ghost var plan, slots;
    extra, plan, slots := MixExcluding(interest, small, hot, open, cfg, cosine, Ids(taken));
    m := Mixed(interest, small, hot, plan, slots);
    MixIsComplete(interest, small, hot, cfg, cosine, Ids(taken), plan, slots, extra);
    NotTaken(cands, taken);
  }

  function TagPart(cands: seq<Candidate>, tags: seq<string>, key: string -> string, limit: nat): seq<Candidate> {
    if tags == [] then [] else FirstN(Tagged(cands, tags, key), limit)
  }

  lemma TagPartIsFresh(cands: seq<Candidate>, tags: seq<string>, key: string -> string, limit: nat)
    requires IdsUnique(cands)
    ensures IsFresh(TagPart(cands, tags, key, limit), {}, Ids(cands)) && |TagPart(cands, tags, key, limit)| <= limit
  {
    if tags != [] {
      TaggedUnique(cands, tags, key);
      TaggedByScore(cands, tags, key);
    }
  }

  // The tag matches that fit on the page.
  method TakeTagged(cands: seq<Candidate>, tags: seq<string>, key: string -> string, limit: nat)
    returns (picked: seq<Candidate>)
    requires IdsUnique(cands)
    ensures picked == TagPart(cands, tags, key, limit)
    ensures IsFresh(picked, {}, Ids(cands)) && |picked| <= limit
  {
    picked := [];
    if |tags| > 0 {
      var tagged := MatchInterestTags(cands, tags, key);
      var take := limit;
      if take > |tagged| {
        take := |tagged|;
      }
      picked := tagged[..take];
    }
    TagPartIsFresh(cands, tags, key, limit);
  }

  lemma FullPage(cands: seq<Candidate>, picked: seq<Candidate>, limit: nat)
    requires IdsUnique(cands) && IsFresh(picked, {}, Ids(cands))
             && |picked| == if limit <= |cands| then limit else |cands|
    ensures Ids(cands) <= Ids(picked) <==> |cands| <= limit
  {
    SizeOfIds(cands);
    SizeOfIds(picked);
    SubsetCard(Ids(picked), Ids(cands));
    if Ids(cands) <= Ids(picked) {
      SubsetCard(Ids(cands), Ids(picked));
    }
  }

  lemma NoMoreThanAll(cands: seq<Candidate>, picked: seq<Candidate>)
    requires IdsUnique(cands) && IsFresh(picked, {}, Ids(cands))
    ensures |picked| <= |cands|
  {
    SizeOfIds(cands);
    SizeOfIds(picked);
    SubsetCard(Ids(picked), Ids(cands));
  }

  // Behind what was taken, the mixer's picks for the rest of the page.
  method FillUp(cands: seq<Candidate>, first: seq<Candidate>, limit: nat, cfg: Config, cosine: Cosine)
    returns (picked: seq<Candidate>, ghost m: Mixed)
    requires IdsUnique(cands) && IsFresh(first, {}, Ids(cands)) && |first| <= limit
    ensures first <= picked && IsFresh(picked, {}, Ids(cands))
            && |picked| == if limit <= |cands| then limit else |cands|
    ensures |first| < limit ==> IsMixed(m, cands, cfg, cosine, Ids(first), limit - |first|, picked[|first|..])
  {
    picked, m := first, Mixed([], [], [], [], []);
    NoMoreThanAll(cands, first);
    if |first| < limit {
      var extra;
      extra, m := Extra(cands, limit - |first|, cfg, cosine, first);
      JoinFresh(first, extra, Ids(cands));
      picked := first + extra;
      assert picked[|first|..] == extra;
    }
  }

  // The page starts with the tag matches, as many of them as it has room for.
  ghost predicate MatchesFirst(picked: seq<Candidate>, cands: seq<Candidate>, tags: seq<string>, key: string -> string) {
    exists r :: NewestTagsFirst(r, cands, tags, key) && (r <= picked || picked <= r)
  }

  lemma TagPartMatchesFirst(picked: seq<Candidate>, cands: seq<Candidate>, tags: seq<string>, key: string -> string,
                            limit: nat)
    requires TagPart(cands, tags, key, limit) <= picked && |picked| <= limit
    ensures MatchesFirst(picked, cands, tags, key)
  {
    var r := Tagged(cands, tags, key);
    TaggedAre(cands, tags, key);
    if tags == [] {
      NoTagsNoMatches(cands, key);
    }
    assert r <= picked || picked <= r;
  }

  lemma {:induction false} NoTagsNoMatches(cands: seq<Candidate>, key: string -> string)
    ensures Matches(cands, [], key) == []
  {
    if cands != [] {
      NoTagsNoMatches(cands[..|cands| - 1], key);
      ScoreReaches(cands[|cands| - 1].video.tags, [], key, 0);
    }
  }

  // A full page of distinct candidates, tag matches first and the mixer's picks behind them; there is more exactly
  // when there were more than fit.
  method PickByTagsOrDefault(cands: seq<Candidate>, tags: seq<string>, key: string -> string, limit: int, cfg: Config,
                             cosine: Cosine)
    returns (picked: seq<Candidate>, hasMore: bool, ghost m: Mixed)
    requires IdsUnique(cands)
    ensures limit <= 0 ==> picked == [] && (hasMore <==> cands != [])
    ensures limit >= 1 ==> IsFresh(picked, {}, Ids(cands)) && |picked| == (if limit <= |cands| then limit else |cands|)
    ensures limit >= 1 ==> (hasMore <==> |cands| > limit)
    ensures limit >= 1 ==> TagPart(cands, tags, key, limit) <= picked && MatchesFirst(picked, cands, tags, key)
    ensures limit >= 1 && |TagPart(cands, tags, key, limit)| < limit ==>
              var first := TagPart(cands, tags, key, limit);
              IsMixed(m, cands, cfg, cosine, Ids(first), limit - |first|, picked[|first|..])
  {
    m := Mixed([], [], [], [], []);
    if limit <= 0 {
      hasMore := LeftoverAny(cands, {});
      if cands != [] {
        assert cands[0].video.id in Ids(cands);
      }
      picked := [];
      return;
    }
    picked := TakeTagged(cands, tags, key, limit);
    picked, m := FillUp(cands, picked, limit, cfg, cosine);
    FullPage(cands, picked, limit);
    TagPartMatchesFirst(picked, cands, tags, key, limit);
    hasMore := LeftoverAny(cands, Ids(picked));
  }
}
