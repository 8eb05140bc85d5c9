/**
 Paging through recommendations (recommend/service.go List): the reader sends back the ids it has been shown, and the
 server remembers only the newest maxExcludeIDs of them.
*/
module RecommendPaging {
  import opened ModArith
  import opened Recency
  import opened Sums
  import opened TopN

  const MAX_EXCLUDE := 200

  function Concat(pages: seq<seq<nat>>): seq<nat> {
    if pages == [] then [] else Concat(pages[..|pages| - 1]) + pages[|pages| - 1]
  }

  // The list that comes back with page k: what was sent, plus the page, cut to its newest entries.
  function SentBack(pages: seq<seq<nat>>): seq<nat> {
    if pages == [] then [] else LastN(SentBack(pages[..|pages| - 1]) + pages[|pages| - 1], MAX_EXCLUDE)
  }

  // What the next page may show.
  function Open(table: set<nat>, pages: seq<seq<nat>>): set<nat> {
    table - SetOf(LastN(SentBack(pages), MAX_EXCLUDE))
  }

  // What pickByTagsOrDefault returns for these candidates.
  ghost predicate IsPage(open: set<nat>, page: seq<nat>, limit: nat) {
    Distinct(page) && SetOf(page) <= open && |page| == if limit <= |open| then limit else |open|
  }

  // The reader asks on while hasMore, that is, while more is open than fits on a page.
  ghost predicate IsWalk(table: set<nat>, pages: seq<seq<nat>>, limit: nat) {
    forall k :: 0 <= k < |pages| ==>
      && IsPage(Open(table, pages[..k]), pages[k], limit)
      && (k + 1 < |pages| ==> |Open(table, pages[..k])| > limit)
  }

  ghost predicate IsFinished(table: set<nat>, pages: seq<seq<nat>>, limit: nat) {
    pages != [] && |Open(table, pages[..|pages| - 1])| <= limit
  }

  // ---------------------------------------------------------------- what the server remembers

  lemma {:induction false} RemembersNewest(pages: seq<seq<nat>>)
    ensures SentBack(pages) == LastN(Concat(pages), MAX_EXCLUDE)
  {
    if pages != [] {
      RemembersNewest(pages[..|pages| - 1]);
    }
  }

  lemma OpenIs(table: set<nat>, pages: seq<seq<nat>>)
    ensures Open(table, pages) == table - SetOf(LastN(Concat(pages), MAX_EXCLUDE))
  {
    RemembersNewest(pages);
    assert LastN(Concat(pages), MAX_EXCLUDE) + [] == LastN(Concat(pages), MAX_EXCLUDE);
    assert Concat(pages) + [] == Concat(pages);
  }

  lemma WalkPrefix(table: set<nat>, pages: seq<seq<nat>>, limit: nat, n: nat)
    requires IsWalk(table, pages, limit) && n <= |pages|
    ensures IsWalk(table, pages[..n], limit)
  {
    forall k | 0 <= k < n
      ensures IsPage(Open(table, pages[..n][..k]), pages[..n][k], limit)
              && (k + 1 < n ==> |Open(table, pages[..n][..k])| > limit)
    {
      assert pages[..n][..k] == pages[..k];
    }
  }

  lemma {:induction false} WalkShowsTable(table: set<nat>, pages: seq<seq<nat>>, limit: nat)
    requires IsWalk(table, pages, limit)
    ensures SetOf(Concat(pages)) <= table
  {
    if pages != [] {
      var n := |pages| - 1;
      WalkPrefix(table, pages, limit, n);
      WalkShowsTable(table, pages[..n], limit);
      assert IsPage(Open(table, pages[..n]), pages[n], limit);
      forall x | x in Concat(pages) ensures x in table {
        assert x in Concat(pages[..n]) || x in SetOf(pages[n]);
      }
    }
  }

  // ---------------------------------------------------------------- no repeats while everything is remembered

  lemma DistinctJoin(a: seq<nat>, b: seq<nat>)
    requires Distinct(a) && Distinct(b) && SetOf(a) !! SetOf(b)
    ensures Distinct(a + b)
  {
    forall i, j | 0 <= i < j < |a + b| ensures (a + b)[i] != (a + b)[j] {
      if i < |a| <= j {
        assert a[i] in SetOf(a) && b[j - |a|] in SetOf(b);
      }
    }
  }

  // A page of what is open shares nothing with what is remembered.
  lemma PageIsNew(table: set<nat>, before: seq<seq<nat>>, page: seq<nat>, limit: nat)
    requires IsPage(Open(table, before), page, limit) && |Concat(before)| <= MAX_EXCLUDE
    ensures SetOf(Concat(before)) !! SetOf(page)
  {
    OpenIs(table, before);
  }

  lemma {:induction false} NoRepeats(table: set<nat>, pages: seq<seq<nat>>, limit: nat)
    requires IsWalk(table, pages, limit) && pages != [] && |Concat(pages[..|pages| - 1])| <= MAX_EXCLUDE
    ensures Distinct(Concat(pages))
  {
    var n := |pages| - 1;
    var before := pages[..n];
    assert IsPage(Open(table, before), pages[n], limit);
    PageIsNew(table, before, pages[n], limit);
    if n > 0 {
      WalkPrefix(table, pages, limit, n);
      assert Concat(before) == Concat(before[..n - 1]) + before[n - 1];
      NoRepeats(table, before, limit);
    }
    DistinctJoin(Concat(before), pages[n]);
  }

  lemma LastPageHasTheRest(open: set<nat>, page: seq<nat>, limit: nat)
    requires IsPage(open, page, limit) && |open| <= limit
    ensures SetOf(page) == open
  {
    SizeOfDistinct(page);
    SubsetCard(SetOf(page), open);
  }

  // The walk showed every candidate, each once.
  predicate IsExact(table: set<nat>, pages: seq<seq<nat>>) {
    Distinct(Concat(pages)) && SetOf(Concat(pages)) == table
  }

  // A walk that ends is exact if and only if everything shown before its last page was still remembered there.
  lemma ExactIffRemembered(table: set<nat>, pages: seq<seq<nat>>, limit: nat)
    requires IsWalk(table, pages, limit) && IsFinished(table, pages, limit)
    ensures IsExact(table, pages) <==> |Concat(pages[..|pages| - 1])| <= MAX_EXCLUDE
  {
    var n := |pages| - 1;
    var shown, open := Concat(pages[..n]), Open(table, pages[..n]);
    assert IsPage(open, pages[n], limit);
    LastPageHasTheRest(open, pages[n], limit);
    OpenIs(table, pages[..n]);
    if |shown| <= MAX_EXCLUDE {
      NoRepeats(table, pages, limit);
      WalkShowsTable(table, pages, limit);
      ShownThenRest(table, shown, pages[n]);
    } else {
      WalkPrefix(table, pages, limit, n);
      WalkShowsTable(table, pages[..n], limit);
      if Distinct(shown) {
        assert shown[0] in SetOf(shown);
        assert shown[0] in SetOf(pages[n]);
        RepeatedElement(shown, pages[n]);
      } else {
        NotDistinctPrefix(shown, pages[n]);
      }
    }
  }

  lemma ShownThenRest(table: set<nat>, shown: seq<nat>, rest: seq<nat>)
    requires SetOf(shown + rest) <= table && SetOf(rest) == table - SetOf(shown)
    ensures SetOf(shown + rest) == table
  {
    forall x | x in table ensures x in shown + rest {
      assert x in SetOf(shown) || x in SetOf(rest);
    }
  }

  lemma RepeatedElement(a: seq<nat>, b: seq<nat>)
    requires a != [] && a[0] in b
    ensures !Distinct(a + b)
  {
    var j :| 0 <= j < |b| && b[j] == a[0];
    assert (a + b)[0] == (a + b)[|a| + j];
  }

  lemma NotDistinctPrefix(a: seq<nat>, b: seq<nat>)
    requires !Distinct(a)
    ensures !Distinct(a + b)
  {
    var i, j :| 0 <= i < j < |a| && a[i] == a[j];
    assert (a + b)[i] == (a + b)[j];
  }

  // ---------------------------------------------------------------- how long a walk is

  lemma Newest(s: seq<nat>, n: nat)
    requires Distinct(s)
    ensures Distinct(LastN(s, n)) && SetOf(LastN(s, n)) <= SetOf(s)
  {}

  // Remembered ids are distinct, so the memory is either everything shown or 200 candidates.
  lemma {:induction false} RemembersDistinct(table: set<nat>, pages: seq<seq<nat>>, limit: nat)
    requires IsWalk(table, pages, limit)
    ensures Distinct(SentBack(pages)) && SetOf(SentBack(pages)) <= table
  {
    if pages != [] {
      var n := |pages| - 1;
      var before, page := SentBack(pages[..n]), pages[n];
      WalkPrefix(table, pages, limit, n);
      RemembersDistinct(table, pages[..n], limit);
      assert IsPage(Open(table, pages[..n]), page, limit);
      assert LastN(before, MAX_EXCLUDE) == before;
      DistinctJoin(before, page);
      Newest(before + page, MAX_EXCLUDE);
      forall x | x in SetOf(before + page) ensures x in table {
        assert x in SetOf(before) || x in SetOf(page);
      }
    }
  }

  function Min(a: int, b: int): int {
    if a <= b then a else b
  }

  lemma OpenSize(table: set<nat>, pages: seq<seq<nat>>, limit: nat)
    requires IsWalk(table, pages, limit)
    ensures |Open(table, pages)| == |table| - Min(MAX_EXCLUDE, |Concat(pages)|)
  {
    var sent := SentBack(pages);
    RemembersDistinct(table, pages, limit);
    RemembersNewest(pages);
    assert LastN(sent, MAX_EXCLUDE) == sent;
    SizeOfDistinct(sent);
    assert Open(table, pages) + SetOf(sent) == table;
  }

  // All pages before the last are full.
  lemma {:induction false} FullPages(table: set<nat>, pages: seq<seq<nat>>, limit: nat, k: nat)
    requires IsWalk(table, pages, limit) && k < |pages|
    ensures |Concat(pages[..k])| == Times(k, limit)
  {
    if k > 0 {
      FullPages(table, pages, limit, k - 1);
      assert pages[..k][..k - 1] == pages[..k - 1];
      assert IsPage(Open(table, pages[..k - 1]), pages[k - 1], limit);
    }
  }

  lemma OpenAt(table: set<nat>, pages: seq<seq<nat>>, limit: nat, k: nat)
    requires IsWalk(table, pages, limit) && k < |pages|
    ensures |Open(table, pages[..k])| == |table| - Min(MAX_EXCLUDE, Times(k, limit))
  {
    WalkPrefix(table, pages, limit, k);
    OpenSize(table, pages[..k], limit);
    FullPages(table, pages, limit, k);
  }

  // With more candidates than the memory and one page hold, hasMore never becomes false.
  lemma LargeTablesNeverEnd(table: set<nat>, pages: seq<seq<nat>>, limit: nat)
    requires IsWalk(table, pages, limit) && |table| > MAX_EXCLUDE + limit
    ensures !IsFinished(table, pages, limit)
  {
    if pages != [] {
      OpenAt(table, pages, limit, |pages| - 1);
    }
  }

  // How many candidates fill whole pages before the last one, and how many pages that makes with the last one.
  function FullBefore(size: nat, limit: nat): nat
    requires limit >= 1
    decreases size
  {
    if size <= limit then 0 else limit + FullBefore(size - limit, limit)
  }

  function PageCount(size: nat, limit: nat): nat
    requires limit >= 1
    decreases size
  {
    if size <= limit then 1 else 1 + PageCount(size - limit, limit)
  }

  lemma {:induction false} ClosedForms(size: nat, limit: nat, k: nat, rest: nat)
    requires 1 <= rest <= limit && size == k * limit + rest
    ensures FullBefore(size, limit) == k * limit && PageCount(size, limit) == k + 1 && k == (size - 1) / limit
    decreases k
  {
    DivModUnique(size - 1, k, rest - 1, limit);
    if k > 0 {
      assert (k - 1) * limit == k * limit - limit;
      assert k * limit >= limit;
      ClosedForms(size - limit, limit, k - 1, rest);
    }
  }

  lemma {:induction false} FullPageFacts(size: nat, limit: nat)
    requires limit >= 1
    ensures PageCount(size, limit) >= 1 && FullBefore(size, limit) == Times(PageCount(size, limit) - 1, limit)
    ensures size <= FullBefore(size, limit) + limit && (size > 0 ==> FullBefore(size, limit) < size)
    decreases size
  {
    if size > limit {
      FullPageFacts(size - limit, limit);
    }
  }

  lemma {:induction false} LengthOfWalk(size: nat, limit: nat, k: nat)
    requires limit >= 1 && size <= Times(k, limit) + limit && (k > 0 ==> size > Times(k, limit))
    ensures PageCount(size, limit) == k + 1
    decreases k
  {
    if k > 0 {
      TimesSign(k - 1, limit);
      LengthOfWalk(size - limit, limit, k - 1);
    }
  }

  lemma LastPageAt(size: nat, limit: nat, k: nat)
    requires limit >= 1 && (k > 0 ==> size - Min(MAX_EXCLUDE, Times(k - 1, limit)) > limit)
    ensures size - Min(MAX_EXCLUDE, Times(k, limit)) <= limit <==>
              size <= MAX_EXCLUDE + limit && k + 1 == PageCount(size, limit)
  {
    FullPageFacts(size, limit);
    if size - Min(MAX_EXCLUDE, Times(k, limit)) <= limit {
      LengthOfWalk(size, limit, k);
    }
  }

  lemma GoesOn(table: set<nat>, pages: seq<seq<nat>>, limit: nat, k: nat)
    requires IsWalk(table, pages, limit) && k + 1 < |pages|
    ensures |table| - Min(MAX_EXCLUDE, Times(k, limit)) > limit
  {
    OpenAt(table, pages, limit, k);
    assert |Open(table, pages[..k])| > limit;
  }

  lemma EndsWhen(table: set<nat>, pages: seq<seq<nat>>, limit: nat)
    requires IsWalk(table, pages, limit) && pages != []
    ensures IsFinished(table, pages, limit) <==> |table| - Min(MAX_EXCLUDE, Times(|pages| - 1, limit)) <= limit
  {
    OpenAt(table, pages, limit, |pages| - 1);
  }

  // Otherwise a walk ends exactly on the page that a walk without any memory limit would end on.
  lemma WalkEnds(table: set<nat>, pages: seq<seq<nat>>, limit: nat)
    requires IsWalk(table, pages, limit) && pages != [] && limit >= 1
    ensures IsFinished(table, pages, limit) <==>
              |table| <= MAX_EXCLUDE + limit && |pages| == PageCount(|table|, limit)
  {
    EndsWhen(table, pages, limit);
    if |pages| > 1 {
      GoesOn(table, pages, limit, |pages| - 2);
    }
    LastPageAt(|table|, limit, |pages| - 1);
  }

  // A walk that ends shows every candidate exactly once if and only if the full pages before the last one hold at most
  // 200 candidates.
  lemma FinishedWalkIsExactIff(table: set<nat>, pages: seq<seq<nat>>, limit: nat)
    requires IsWalk(table, pages, limit) && IsFinished(table, pages, limit) && limit >= 1
    ensures IsExact(table, pages) <==> FullBefore(|table|, limit) <= MAX_EXCLUDE
  {
    WalkEnds(table, pages, limit);
    FullPages(table, pages, limit, |pages| - 1);
    FullPageFacts(|table|, limit);
    ExactIffRemembered(table, pages, limit);
  }

  // So it is with at most 200 candidates ...
  lemma SmallTablesAreWalkedOnce(table: set<nat>, pages: seq<seq<nat>>, limit: nat)
    requires IsWalk(table, pages, limit) && IsFinished(table, pages, limit) && limit >= 1 && |table| <= MAX_EXCLUDE
    ensures IsExact(table, pages)
  {
    FinishedWalkIsExactIff(table, pages, limit);
    FullPageFacts(|table|, limit);
  }

  lemma {:induction false} TimesGrows(a: nat, b: nat, x: nat)
    requires a < b
    ensures Times(a, x) + x <= Times(b, x)
  {
    if a < b - 1 {
      TimesGrows(a, b - 1, x);
    }
  }

  lemma DividingLimit(size: nat, limit: nat, times: nat)
    requires limit >= 1 && Times(times, limit) == MAX_EXCLUDE && size <= MAX_EXCLUDE + limit
    ensures FullBefore(size, limit) <= MAX_EXCLUDE
  {
    FullPageFacts(size, limit);
    if PageCount(size, limit) - 1 > times {
      TimesGrows(times, PageCount(size, limit) - 1, limit);
    } else if PageCount(size, limit) - 1 < times {
      TimesGrows(PageCount(size, limit) - 1, times, limit);
    }
  }

  // ... and whenever the page size divides 200, as the default of 10 does.
  lemma DividingLimitsWalkOnce(table: set<nat>, pages: seq<seq<nat>>, limit: nat, times: nat)
    requires IsWalk(table, pages, limit) && IsFinished(table, pages, limit) && limit >= 1
    requires Times(times, limit) == MAX_EXCLUDE
    ensures IsExact(table, pages)
  {
    FinishedWalkIsExactIff(table, pages, limit);
    WalkEnds(table, pages, limit);
    DividingLimit(|table|, limit, times);
  }

  // ---------------------------------------------------------------- a walk that repeats

  function Ids(lo: nat, n: nat): (ids: seq<nat>)
    ensures |ids| == n && forall i :: 0 <= i < n ==> ids[i] == lo + i
  {
    seq(n, i requires 0 <= i => lo + i)
  }

  // 29 full pages, and then the last four candidates with the three that were forgotten.
  const CANDIDATES: set<nat> := SetOf(Ids(1, 207))
  const LAST_PAGE: seq<nat> := [204, 205, 206, 207, 1, 2, 3]

  function FullWalk(n: nat): (pages: seq<seq<nat>>)
    ensures |pages| == n && forall i :: 0 <= i < n ==> pages[i] == Ids(1 + 7 * i, 7)
  {
    seq(n, i requires 0 <= i => Ids(1 + 7 * i, 7))
  }

  lemma {:induction false} FullWalkShows(n: nat)
    ensures Concat(FullWalk(n)) == Ids(1, 7 * n)
  {
    if n > 0 {
      FullWalkShows(n - 1);
      assert FullWalk(n)[..n - 1] == FullWalk(n - 1);
    }
  }

  lemma InCandidates(x: nat)
    ensures x in CANDIDATES <==> 1 <= x <= 207
  {
    if 1 <= x <= 207 {
      assert Ids(1, 207)[x - 1] == x;
    }
  }

  lemma InIds(lo: nat, n: nat, x: nat)
    ensures x in SetOf(Ids(lo, n)) <==> lo <= x < lo + n
  {
    if lo <= x < lo + n {
      assert Ids(lo, n)[x - lo] == x;
    }
  }

  lemma OpenAfter(n: nat, x: nat)
    requires n <= 29
    ensures x in Open(CANDIDATES, FullWalk(n)) <==> (7 * n < x <= 207 || (n == 29 && 1 <= x <= 3))
  {
    OpenIs(CANDIDATES, FullWalk(n));
    FullWalkShows(n);
    InCandidates(x);
    if n < 29 {
      InIds(1, 7 * n, x);
    } else {
      assert LastN(Ids(1, 203), MAX_EXCLUDE) == Ids(4, 200);
      InIds(4, 200, x);
    }
  }

  lemma OpenAsSet(n: nat)
    requires n <= 29
    ensures if n == 29 then Open(CANDIDATES, FullWalk(n)) == SetOf(LAST_PAGE) && |SetOf(LAST_PAGE)| == 7
            else |Open(CANDIDATES, FullWalk(n))| > 7 && SetOf(Ids(1 + 7 * n, 7)) <= Open(CANDIDATES, FullWalk(n))
  {
    forall x: nat ensures x in Open(CANDIDATES, FullWalk(n)) <==> (7 * n < x <= 207 || (n == 29 && 1 <= x <= 3)) {
      OpenAfter(n, x);
    }
    if n == 29 {
      SizeOfDistinct(LAST_PAGE);
    } else {
      var some := Ids(1 + 7 * n, 8);
      SizeOfDistinct(some);
      SubsetCard(SetOf(some), Open(CANDIDATES, FullWalk(n)));
    }
  }

  lemma RepeatingPage(pages: seq<seq<nat>>, k: nat)
    requires pages == FullWalk(29) + [LAST_PAGE] && k < 30
    ensures IsPage(Open(CANDIDATES, pages[..k]), pages[k], 7)
    ensures if k == 29 then |Open(CANDIDATES, pages[..k])| == 7 else |Open(CANDIDATES, pages[..k])| > 7
  {
    assert pages[..k] == FullWalk(k);
    OpenAsSet(k);
  }

  lemma RepeatingWalkIsWalk(pages: seq<seq<nat>>)
    requires pages == FullWalk(29) + [LAST_PAGE]
    ensures IsWalk(CANDIDATES, pages, 7) && IsFinished(CANDIDATES, pages, 7)
  {
    forall k | 0 <= k < 30
      ensures IsPage(Open(CANDIDATES, pages[..k]), pages[k], 7) && (k + 1 < 30 ==> |Open(CANDIDATES, pages[..k])| > 7)
    {
      RepeatingPage(pages, k);
    }
    RepeatingPage(pages, 29);
  }

  // 207 candidates in pages of seven: the walk ends, and its last page repeats three videos.
  lemma RepeatingWalk()
    ensures var pages := FullWalk(29) + [LAST_PAGE];
            && IsWalk(CANDIDATES, pages, 7) && IsFinished(CANDIDATES, pages, 7)
            && !Distinct(Concat(pages)) && |CANDIDATES| == 207
  {
    var pages := FullWalk(29) + [LAST_PAGE];
    RepeatingWalkIsWalk(pages);
    SizeOfDistinct(Ids(1, 207));
    FullWalkShows(29);
    assert pages[..29] == FullWalk(29);
    RepeatedElement(Ids(1, 203), LAST_PAGE);
  }
}
