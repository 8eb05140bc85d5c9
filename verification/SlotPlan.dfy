/** How a recommendation page's slots are shared out between the three queues (recommend/mixer.go slotPlan). */
module SlotPlan {

  datatype Queue = Interest | Small | Hot

  // math.Round: halves away from zero.
  function Round(x: real): int {
    if x >= 0.0 then (x + 0.5).Floor else -(0.5 - x).Floor
  }

  // The whole slots for an exact share of the page.
  function WholeSlots(limit: int, exact: real, some: bool): (n: int)
    ensures limit > 0 ==> n <= limit
  {
    var n := Round(exact);
    var least := if n < 1 && some && limit >= 5 then 1 else n;
    if least > limit then limit else least
  }

  function SmallSlots(limit: int, ratio: real): (n: int)
    ensures limit > 0 ==> n <= limit
  {
    WholeSlots(limit, limit as real * ratio, ratio > 0.0)
  }

  function HotSlots(limit: int, small: int): (h: int)
    ensures 0 <= h <= 2
  {
    var hot := if limit >= 10 then 2 else if limit >= 5 then 1 else 0;
    if small + hot < limit then hot else if limit - small - 1 > 0 then limit - small - 1 else 0
  }

  // The nearest number of slots, but at least one of a page of five or more and never more than the page.
  ghost predicate IsNearest(slots: int, limit: int, exact: real) {
    || exact - 0.5 <= slots as real <= exact + 0.5
    || (slots == 1 && limit >= 5 && 0.0 < exact < 0.5)
    || (slots == limit && exact > limit as real)
  }

  // Small creators get the ratio of the page.
  lemma SmallShare(limit: int, ratio: real)
    requires limit > 0 && ratio >= 0.0
    ensures IsNearest(SmallSlots(limit, ratio), limit, limit as real * ratio)
  {
    var exact := limit as real * ratio;
    NotNegative(limit as real, ratio);
    if ratio > 0.0 {
      Positive(limit as real, ratio);
    }
    NearestSlots(limit, exact, ratio > 0.0, SmallSlots(limit, ratio));
  }

  // The hot queue gets one slot of a page of five or more and two of one of ten, unless that left no slot for the
  // reader's interests.
  lemma HotShare(limit: int, small: int)
    requires limit > 0 && small <= limit
    ensures var hot := HotSlots(limit, small);
            && 0 <= hot <= limit / 5 && (small < limit ==> small + hot < limit)
            && (small + 2 < limit ==> hot == if limit >= 10 then 2 else if limit >= 5 then 1 else 0)
  {}

  lemma NearestSlots(limit: int, exact: real, some: bool, small: int)
    requires limit > 0 && exact >= 0.0 && (some ==> exact > 0.0) && small == WholeSlots(limit, exact, some)
    ensures IsNearest(small, limit, exact)
  {
    var n := Round(exact);
    assert exact - 0.5 <= n as real <= exact + 0.5;
    if n > limit {
      assert n as real >= limit as real + 1.0;
    }
    if n < 1 {
      assert exact < 0.5;
    }
  }

  lemma Positive(x: real, y: real)
    requires x > 0.0 && y > 0.0
    ensures x * y > 0.0
  {}

  lemma NotNegative(x: real, y: real)
    requires x >= 0.0 && y >= 0.0
    ensures x * y >= 0.0
  {}

  function Share(plan: seq<Queue>, q: Queue): nat {
    if plan == [] then 0 else Share(plan[..|plan| - 1], q) + if plan[|plan| - 1] == q then 1 else 0
  }

  lemma {:induction false} ShareOfUpdate(plan: seq<Queue>, i: nat, to: Queue, q: Queue)
    requires i < |plan|
    ensures Share(plan[i := to], q) == Share(plan, q) - (if plan[i] == q then 1 else 0) + (if to == q then 1 else 0)
  {
    var n := |plan| - 1;
    var changed := plan[i := to];
    if i == n {
      assert changed[..n] == plan[..n];
    } else {
      assert changed[..n] == plan[..n][i := to];
      ShareOfUpdate(plan[..n], i, to, q);
    }
  }

  lemma {:induction false} ShareOfUniform(plan: seq<Queue>, q: Queue)
    requires forall i :: 0 <= i < |plan| ==> plan[i] == q
    ensures Share(plan, q) == |plan| && forall other :: other != q ==> Share(plan, other) == 0
  {
    if plan != [] {
      ShareOfUniform(plan[..|plan| - 1], q);
    }
  }

  lemma {:induction false} NoInterestLeft(plan: seq<Queue>)
    requires forall i :: 0 <= i < |plan| ==> plan[i] != Interest
    ensures Share(plan, Small) + Share(plan, Hot) == |plan|
  {
    if plan != [] {
      NoInterestLeft(plan[..|plan| - 1]);
    }
  }

  // The third slot of every five is for a small creator and the fifth for the hot queue, each as long as its share
  // lasts; small creators whose share is larger get the first of the other slots.
  ghost predicate IsPlan(plan: seq<Queue>, small: int, hot: int) {
    && (forall i :: 0 <= i < |plan| ==> (plan[i] == Hot <==> (i + 1) % 5 == 0 && (i + 1) / 5 <= hot))
    && (forall i :: 0 <= i < |plan| && (i + 1) % 5 == 3 && (i + 3) / 5 <= small ==> plan[i] == Small)
    && (forall i, j :: 0 <= i < j < |plan| && plan[j] == Small && (j + 1) % 5 != 3 ==> plan[i] != Interest)
  }

  // What the first loop puts into a slot.
  function First(i: nat, small: int, hot: int): Queue {
    if (i + 1) % 5 == 3 && (i + 3) / 5 <= small then Small
    else if (i + 1) % 5 == 0 && (i + 1) / 5 <= hot then Hot
    else Interest
  }

  // How many of n places for it a queue with this share fills.
  function Placed(share: int, n: nat): int {
    if share <= 0 then 0 else if share < n then share else n
  }

  lemma FirstStep(i: nat, small: int, hot: int)
    ensures First(i, small, hot) == Small <==> (i + 1) % 5 == 3 && Placed(small, (i + 2) / 5) < small
    ensures First(i, small, hot) == Hot <==> (i + 1) % 5 == 0 && Placed(hot, i / 5) < hot
    ensures Placed(small, (i + 3) / 5) == Placed(small, (i + 2) / 5) + if First(i, small, hot) == Small then 1 else 0
    ensures Placed(hot, (i + 1) / 5) == Placed(hot, i / 5) + if First(i, small, hot) == Hot then 1 else 0
  {}

  // What the second loop has done up to slot i.
  ghost predicate Filled(plan: seq<Queue>, i: nat, small: int, hot: int) {
    && i <= |plan|
    && (forall j :: i <= j < |plan| ==> plan[j] == First(j, small, hot))
    && (forall j :: 0 <= j < i ==> plan[j] == if First(j, small, hot) == Interest then Small else First(j, small, hot))
  }

  lemma FilledIsPlan(plan: seq<Queue>, i: nat, small: int, hot: int)
    requires Filled(plan, i, small, hot)
    ensures IsPlan(plan, small, hot)
  {
    forall a, b | 0 <= a < b < |plan| && plan[b] == Small && (b + 1) % 5 != 3 ensures plan[a] != Interest {
      assert b < i;
    }
  }

  // Every slot goes to some queue, in the plan's pattern; small creators get exactly their share.
  method Plan(limit: int, ratio: real) returns (plan: seq<Queue>)
    ensures |plan| == if limit <= 0 then 0 else limit
    ensures limit > 0 ==> Share(plan, Small) == if SmallSlots(limit, ratio) > 0 then SmallSlots(limit, ratio) else 0
    ensures limit > 0 ==> Share(plan, Hot) == HotSlots(limit, SmallSlots(limit, ratio))
    ensures limit > 0 ==> IsPlan(plan, SmallSlots(limit, ratio), HotSlots(limit, SmallSlots(limit, ratio)))
  {
    if limit <= 0 {
      return [];
    }
    var small := SmallSlots(limit, ratio);
    var hot := HotSlots(limit, small);
    HotShare(limit, small);
    plan := FirstRound(limit, small, hot);
    plan := SecondRound(plan, small, hot);
  }

  ghost predicate Begun(plan: seq<Queue>, i: nat, small: int, hot: int) {
    && (forall j :: 0 <= j < |plan| && j < i ==> plan[j] == First(j, small, hot))
    && (forall j :: i <= j < |plan| ==> plan[j] == Interest)
  }

  ghost predicate Placing(plan: seq<Queue>, i: nat, small: int, hot: int) {
    && i <= |plan| && Begun(plan, i, small, hot)
    && Share(plan, Small) == Placed(small, (i + 2) / 5) && Share(plan, Hot) == Placed(hot, i / 5)
  }

  lemma PlaceStep(plan: seq<Queue>, i: nat, small: int, hot: int)
    requires i < |plan| && Placing(plan, i, small, hot)
    ensures var q := First(i, small, hot); var next := plan[i := q];
            && Placing(next, i + 1, small, hot)
            && (q == Small <==> (i + 1) % 5 == 3 && Share(plan, Small) < small)
            && (q == Hot <==> (i + 1) % 5 == 0 && Share(plan, Hot) < hot)
            && (q == Interest ==> next == plan)
            && Share(next, Small) == Share(plan, Small) + (if q == Small then 1 else 0)
            && Share(next, Hot) == Share(plan, Hot) + (if q == Hot then 1 else 0)
  {
    FirstStep(i, small, hot);
    ShareOfUpdate(plan, i, First(i, small, hot), Small);
    ShareOfUpdate(plan, i, First(i, small, hot), Hot);
  }

  method FirstRound(limit: nat, small: int, hot: int) returns (plan: seq<Queue>)
    ensures |plan| == limit && Filled(plan, 0, small, hot)
    ensures Share(plan, Small) == Placed(small, (limit + 2) / 5) && Share(plan, Hot) == Placed(hot, limit / 5)
  {
    plan := seq(limit, i => Interest);
    ShareOfUniform(plan, Interest);
    var placedSmall, placedHot := 0, 0;
    for i := 0 to limit
      invariant |plan| == limit && Placing(plan, i, small, hot)
      invariant placedSmall == Share(plan, Small) && placedHot == Share(plan, Hot)
    {
      PlaceStep(plan, i, small, hot);
      var mod := (i + 1) % 5;
      if mod == 3 && placedSmall < small {
        plan := plan[i := Small];
        placedSmall := placedSmall + 1;
        continue;
      }
      if mod == 0 && placedHot < hot {
        plan := plan[i := Hot];
        placedHot := placedHot + 1;
      }
    }
  }

  // Slots still open go to small creators until their share is used up.
  method SecondRound(first: seq<Queue>, small: int, hot: int) returns (plan: seq<Queue>)
    requires Filled(first, 0, small, hot) && Placed(small, |first|) + Placed(hot, |first|) <= |first| && small <= |first|
    requires Share(first, Small) <= Placed(small, |first|) && Share(first, Hot) <= Placed(hot, |first|)
    requires small <= 0 ==> Share(first, Small) == 0
    ensures |plan| == |first| && IsPlan(plan, small, hot)
    ensures Share(plan, Small) == (if small > 0 then small else 0) && Share(plan, Hot) == Share(first, Hot)
  {
    plan := first;
    var placedSmall := Share(first, Small);
    var i := 0;
    while i < |plan| && placedSmall < small
      invariant 0 <= i <= |plan| == |first| && Filled(plan, i, small, hot)
      invariant Share(plan, Small) == placedSmall <= Placed(small, |first|) && Share(plan, Hot) == Share(first, Hot)
      decreases |plan| - i
    {
      if plan[i] == Interest {
        ShareOfUpdate(plan, i, Small, Small);
        ShareOfUpdate(plan, i, Small, Hot);
        plan := plan[i := Small];
        placedSmall := placedSmall + 1;
      }
      i := i + 1;
    }
    FilledIsPlan(plan, i, small, hot);
    if placedSmall < small {
      NoInterestLeft(plan);
    }
  }
}
