/** Lists without repetition: keeping first or last occurrences, and trimming to a length. */
module Recency {
  import opened TopN

  predicate Distinct<T(==)>(s: seq<T>) {
    forall i, j :: 0 <= i < j < |s| ==> s[i] != s[j]
  }

  function FirstN<T>(s: seq<T>, n: nat): seq<T> {
    if |s| <= n then s else s[..n]
  }

  function LastN<T>(s: seq<T>, n: nat): seq<T> {
    if |s| <= n then s else s[|s| - n..]
  }

  // Apply f to every element and drop the results equal to `none`.
  function Collect<S, T(==)>(s: seq<S>, f: S -> T, none: T): (r: seq<T>)
    ensures none !in r && |r| <= |s|
  {
    if s == [] then []
    else
      var r := Collect(s[..|s| - 1], f, none);
      if f(s[|s| - 1]) == none then r else r + [f(s[|s| - 1])]
  }

  // Keep the first occurrence of every element.
  function FirstOnly<T(==)>(s: seq<T>): seq<T> {
    if s == [] then []
    else
      var r := FirstOnly(s[..|s| - 1]);
      if s[|s| - 1] in s[..|s| - 1] then r else r + [s[|s| - 1]]
  }

  // Keep the last occurrence of every element.
  function LastOnly<T(==)>(s: seq<T>): seq<T> {
    if s == [] then [] else if s[0] in s[1..] then LastOnly(s[1..]) else [s[0]] + LastOnly(s[1..])
  }

  function Without<T(==)>(s: seq<T>, x: T): seq<T> {
    if s == [] then [] else if s[0] == x then Without(s[1..], x) else [s[0]] + Without(s[1..], x)
  }

  lemma CollectStep<S, T>(s: seq<S>, f: S -> T, none: T, i: nat)
    requires i < |s|
    ensures var r := Collect(s[..i], f, none);
            Collect(s[..i + 1], f, none) == if f(s[i]) == none then r else r + [f(s[i])]
  {
    assert s[..i + 1][..i] == s[..i];
  }

  lemma {:induction false} CollectAppend<S, T>(a: seq<S>, b: seq<S>, f: S -> T, none: T)
    ensures Collect(a + b, f, none) == Collect(a, f, none) + Collect(b, f, none)
  {
    if b == [] {
      assert a + b == a;
    } else {
      CollectAppend(a, b[..|b| - 1], f, none);
      assert (a + b)[..|a + b| - 1] == a + b[..|b| - 1];
    }
  }

  // Nothing is dropped or changed exactly when f fixes every element.
  lemma {:induction false} CollectFixed<T>(s: seq<T>, f: T -> T, none: T)
    requires none !in s
    ensures Collect(s, f, none) == s <==> forall i :: 0 <= i < |s| ==> f(s[i]) == s[i]
  {
    if s != [] {
      var n := |s| - 1;
      var front := s[..n];
      assert s == front + [s[n]];
      CollectFixed(front, f, none);
      assert (forall i :: 0 <= i < |s| ==> f(s[i]) == s[i])
        <==> (forall i :: 0 <= i < |front| ==> f(front[i]) == front[i]) && f(s[n]) == s[n];
      var c := Collect(front, f, none);
      assert Collect(s, f, none) == s ==> c == front by {
        if Collect(s, f, none) == s {
          assert |c| <= n;
          assert f(s[n]) != none && |c| == n;
          assert c == s[..n];
        }
      }
    }
  }

  lemma {:induction false} FirstOnlyFacts<T>(s: seq<T>)
    ensures Distinct(FirstOnly(s)) && |FirstOnly(s)| <= |s|
    ensures forall x :: x in FirstOnly(s) <==> x in s
  {
    if s != [] {
      FirstOnlyFacts(s[..|s| - 1]);
      assert s == s[..|s| - 1] + [s[|s| - 1]];
    }
  }

  ghost predicate OccursBefore<T>(s: seq<T>, j: nat, x: T)
    requires j <= |s|
  {
    exists i :: 0 <= i < j && s[i] == x
  }

  ghost predicate OccursBehind<T>(s: seq<T>, i: nat, x: T) {
    exists j :: i < j < |s| && s[j] == x
  }

  lemma PlaceOf<T(!new)>(s: seq<T>, r: seq<T>, p: nat) returns (i: nat)
    requires p < |r| && forall x :: x in r ==> x in s
    ensures i < |s| && s[i] == r[p]
  {
    assert r[p] in r;
    i :| 0 <= i < |s| && s[i] == r[p];
  }

  lemma PlaceBehind<T>(s: seq<T>, n: nat, x: T) returns (q: nat)
    requires n <= |s| && x in s && x !in s[..n]
    ensures n <= q < |s| && s[q] == x
  {
    assert s == s[..n] + s[n..];
    var k :| 0 <= k < |s[n..]| && s[n..][k] == x;
    q := n + k;
  }

  lemma PlaceBefore<T>(s: seq<T>, n: nat, x: T) returns (q: nat)
    requires n <= |s| && x in s && x !in s[n..]
    ensures q < n && s[q] == x
  {
    assert s == s[..n] + s[n..];
    q :| 0 <= q < |s[..n]| && s[..n][q] == x;
  }

  // Of two elements that are kept, every occurrence of the later one has an occurrence of the earlier one before it.
  lemma {:induction false} FirstOnlyOrder<T(!new)>(s: seq<T>, p: nat, q: nat, j: nat)
    requires p < q < |FirstOnly(s)| && j < |s| && s[j] == FirstOnly(s)[q]
    ensures OccursBefore(s, j, FirstOnly(s)[p])
  {
    var n := |s| - 1;
    var front, r := s[..n], FirstOnly(s[..n]);
    FirstOnlyFacts(front);
    assert FirstOnly(s) == if s[n] in front then r else r + [s[n]];
    if j < n {
      assert front[j] == s[j];
      FirstOnlyOrder(front, p, q, j);
      var i :| 0 <= i < j && front[i] == r[p];
      assert s[i] == r[p];
    } else {
      var i := PlaceOf(front, r, p);
      assert s[i] == r[p];
    }
  }

  lemma FirstOnlyStep<T>(s: seq<T>, x: T)
    ensures FirstOnly(s + [x]) == if x in FirstOnly(s) then FirstOnly(s) else FirstOnly(s) + [x]
  {
    FirstOnlyFacts(s);
    assert (s + [x])[..|s|] == s;
  }

  lemma {:induction false} FirstOnlyAppend<T>(a: seq<T>, b: seq<T>)
    ensures FirstOnly(a) <= FirstOnly(a + b)
  {
    if b == [] {
      assert a + b == a;
    } else {
      FirstOnlyAppend(a, b[..|b| - 1]);
      assert (a + b)[..|a + b| - 1] == a + b[..|b| - 1];
    }
  }

  lemma {:induction false} FirstOnlyFixed<T>(s: seq<T>)
    ensures Distinct(s) <==> FirstOnly(s) == s
    ensures |FirstOnly(s)| == |s| ==> FirstOnly(s) == s
  {
    FirstOnlyFacts(s);
    if s != [] {
      var front := s[..|s| - 1];
      FirstOnlyFixed(front);
      FirstOnlyFacts(front);
      assert s == front + [s[|s| - 1]];
    }
  }

  lemma {:induction false} WithoutAppend<T>(a: seq<T>, b: seq<T>, x: T)
    ensures Without(a + b, x) == Without(a, x) + Without(b, x)
  {
    if a == [] {
      assert a + b == b;
    } else {
      WithoutAppend(a[1..], b, x);
      assert (a + b)[1..] == a[1..] + b;
    }
  }

  lemma {:induction false} LastOnlyFacts<T>(s: seq<T>)
    ensures Distinct(LastOnly(s))
    ensures forall x :: x in LastOnly(s) <==> x in s
  {
    if s != [] {
      LastOnlyFacts(s[1..]);
      assert s == [s[0]] + s[1..];
    }
  }

  // Of two elements that are kept, every occurrence of the earlier one has an occurrence of the later one behind it.
  lemma {:induction false} LastOnlyOrder<T(!new)>(s: seq<T>, p: nat, q: nat, i: nat)
    requires p < q < |LastOnly(s)| && i < |s| && s[i] == LastOnly(s)[p]
    ensures OccursBehind(s, i, LastOnly(s)[q])
  {
    var tail := s[1..];
    var kept := s[0] !in tail;
    var m := if kept then q - 1 else q;
    LastOnlyFacts(tail);
    assert LastOnly(s) == if kept then [s[0]] + LastOnly(tail) else LastOnly(tail);
    assert LastOnly(s)[q] == LastOnly(tail)[m];
    if i == 0 {
      var j := PlaceOf(tail, LastOnly(tail), m);
      assert s[j + 1] == tail[j];
    } else {
      assert tail[i - 1] == s[i];
      LastOnlyOrder(tail, if kept then p - 1 else p, m, i - 1);
      var j :| i - 1 < j < |tail| && tail[j] == LastOnly(tail)[m];
      assert s[j + 1] == tail[j];
    }
  }

  lemma {:induction false} LastOnlyFixed<T>(s: seq<T>)
    requires Distinct(s)
    ensures LastOnly(s) == s
  {
    if s != [] {
      assert forall i :: 0 <= i < |s| - 1 ==> s[1..][i] == s[i + 1];
      LastOnlyFixed(s[1..]);
      assert s == [s[0]] + s[1..];
    }
  }

  // Appending one element: drop its earlier occurrence, put it last.
  lemma {:induction false} LastOnlyStep<T>(s: seq<T>, x: T)
    ensures LastOnly(s + [x]) == Without(LastOnly(s), x) + [x]
  {
    if s == [] {
      assert s + [x] == [x];
      assert [x][1..] == [];
    } else {
      var head, tail := s[0], s[1..];
      LastOnlyStep(tail, x);
      assert (s + [x])[1..] == tail + [x];
      if head !in tail {
        WithoutAppend([head], LastOnly(tail), x);
      } else {
        assert LastOnly(s) == LastOnly(tail);
        assert head in tail + [x];
      }
    }
  }

  // Earlier elements survive only if nothing later repeats them, and they stay in front.
  lemma {:induction false} LastOnlySuffix<T>(p: seq<T>, s: seq<T>) returns (q: seq<T>)
    ensures LastOnly(p + s) == q + LastOnly(s)
  {
    if p == [] {
      assert p + s == s;
      q := [];
      assert q + LastOnly(s) == LastOnly(s);
    } else {
      var r := LastOnlySuffix(p[1..], s);
      assert (p + s)[1..] == p[1..] + s;
      q := if p[0] in p[1..] + s then r else [p[0]] + r;
    }
  }

  lemma ConsAppend<T>(x: T, l: seq<T>, b: seq<T>)
    ensures ([x] + l) + b == [x] + (l + b)
  {}

  lemma AbsorbOneMore<T>(head: T, tail: seq<T>, b: seq<T>)
    requires LastOnly(LastOnly(tail) + b) == LastOnly(tail + b)
    ensures LastOnly(LastOnly([head] + tail) + b) == LastOnly([head] + (tail + b))
  {
    var kept := LastOnly(tail);
    if head !in tail {
      LastOnlyFacts(tail);
      assert head in kept + b <==> head in tail + b;
      ConsAppend(head, kept, b);
    }
  }

  // Deduplicating a prefix first changes nothing.
  lemma {:induction false} LastOnlyAbsorbs<T>(a: seq<T>, b: seq<T>)
    ensures LastOnly(LastOnly(a) + b) == LastOnly(a + b)
  {
    if a == [] {
      assert LastOnly(a) + b == b && a + b == b;
    } else {
      LastOnlyAbsorbs(a[1..], b);
      AbsorbOneMore(a[0], a[1..], b);
      assert a == [a[0]] + a[1..];
      assert a + b == [a[0]] + (a[1..] + b);
    }
  }

  lemma {:induction false} SizeOfDistinct<T>(s: seq<T>)
    requires Distinct(s)
    ensures |SetOf(s)| == |s|
  {
    if s != [] {
      var front, last := s[..|s| - 1], s[|s| - 1];
      SizeOfDistinct(front);
      assert SetOf(s) == SetOf(front) + {last};
    }
  }

  lemma DistinctInside<T>(s: seq<T>, t: seq<T>)
    requires Distinct(s) && Distinct(t) && forall x :: x in s ==> x in t
    ensures |s| <= |t|
  {
    SizeOfDistinct(s);
    SizeOfDistinct(t);
    SubsetCard(SetOf(s), SetOf(t));
  }

  // Trimming to the last n before or after more elements arrive gives the same list.
  lemma TrimThenAppend<T>(x: seq<T>, b: seq<T>, n: nat)
    requires Distinct(x)
    ensures LastN(LastOnly(LastN(x, n) + b), n) == LastN(LastOnly(x + b), n)
  {
    if |x| > n {
      var p, m := x[..|x| - n], LastN(x, n);
      assert x + b == p + (m + b);
      var q := LastOnlySuffix(p, m + b);
      var r := LastOnly(m + b);
      LastOnlyFacts(m + b);
      assert Distinct(m);
      DistinctInside(m, r);
      assert LastN(q + r, n) == LastN(r, n);
    }
  }

  // One round of a loop that appends each new label.
  lemma CollectFirstOnly<S, T>(s: seq<S>, f: S -> T, none: T, i: nat)
    requires i < |s|
    ensures var before := FirstOnly(Collect(s[..i], f, none));
            FirstOnly(Collect(s[..i + 1], f, none))
              == if f(s[i]) == none || f(s[i]) in before then before else before + [f(s[i])]
  {
    CollectStep(s, f, none, i);
    var c := Collect(s[..i], f, none);
    if f(s[i]) != none {
      FirstOnlyStep(c, f(s[i]));
    }
  }

  // Once n labels are found the rest of the list does not matter.
  lemma CollectFirstOnlyPrefix<S, T>(s: seq<S>, f: S -> T, none: T, i: nat, n: nat)
    requires i <= |s| && |FirstOnly(Collect(s[..i], f, none))| <= n
    requires i == |s| || |FirstOnly(Collect(s[..i], f, none))| == n
    ensures FirstN(FirstOnly(Collect(s, f, none)), n) == FirstOnly(Collect(s[..i], f, none))
  {
    assert s[..i] + s[i..] == s;
    CollectAppend(s[..i], s[i..], f, none);
    FirstOnlyAppend(Collect(s[..i], f, none), Collect(s[i..], f, none));
    if i == |s| {
      assert s[..i] == s;
    }
  }

  // One round of a loop that moves each new label to the end.
  lemma CollectLastOnly<S, T>(base: seq<T>, s: seq<S>, f: S -> T, none: T, i: nat)
    requires i < |s|
    ensures var before := LastOnly(base + Collect(s[..i], f, none));
            LastOnly(base + Collect(s[..i + 1], f, none))
              == if f(s[i]) == none then before else Without(before, f(s[i])) + [f(s[i])]
  {
    CollectStep(s, f, none, i);
    var c := Collect(s[..i], f, none);
    if f(s[i]) != none {
      LastOnlyStep(base + c, f(s[i]));
      assert base + (c + [f(s[i])]) == base + c + [f(s[i])];
    }
  }

  // Merging b after trimming to n agrees with merging a and b together.
  lemma TwoStepMerge<T>(base: seq<T>, a: seq<T>, b: seq<T>, n: nat)
    ensures LastN(LastOnly(LastN(LastOnly(base + a), n) + b), n) == LastN(LastOnly(base + (a + b)), n)
  {
    var c := base + a;
    assert c + b == base + (a + b);
    LastOnlyFacts(c);
    TrimThenAppend(LastOnly(c), b, n);
    LastOnlyAbsorbs(c, b);
  }

  lemma DistinctByCount<T>(s: seq<T>, r: seq<T>)
    requires Distinct(s) && |r| == |s| && forall x :: x in r <==> x in s
    ensures Distinct(r)
  {
    FirstOnlyFacts(r);
    DistinctInside(s, FirstOnly(r));
    FirstOnlyFixed(r);
  }

  // ---------------------------------------------------------------- which occurrences are kept, and in which order

  // Before every element of the list that comes later or is left out stands each element that is kept before it.
  ghost predicate FirstMet<T(!new)>(l: seq<T>, r: seq<T>) {
    && (forall p, q, j :: 0 <= p < q < |r| && 0 <= j < |l| && l[j] == r[q] ==> OccursBefore(l, j, r[p]))
    && (forall p, j :: 0 <= p < |r| && 0 <= j < |l| && l[j] !in r ==> OccursBefore(l, j, r[p]))
  }

  // Behind every element of the list that comes earlier or is left out stands each element that is kept behind it.
  ghost predicate LastMet<T(!new)>(l: seq<T>, r: seq<T>) {
    && (forall p, q, i :: 0 <= p < q < |r| && 0 <= i < |l| && l[i] == r[p] ==> OccursBehind(l, i, r[q]))
    && (forall q, i :: 0 <= q < |r| && 0 <= i < |l| && l[i] !in r ==> OccursBehind(l, i, r[q]))
  }

  lemma FirstsAreFirstMet<T(!new)>(l: seq<T>, n: nat)
    ensures var r := FirstN(FirstOnly(l), n);
            && FirstMet(l, r) && (forall x :: x in r ==> x in l) && ((forall x :: x in l ==> x in r) || |r| == n)
  {
    var all, r := FirstOnly(l), FirstN(FirstOnly(l), n);
    FirstOnlyFacts(l);
    forall p, q, j | 0 <= p < q < |r| && 0 <= j < |l| && l[j] == r[q] ensures OccursBefore(l, j, r[p]) {
      FirstOnlyOrder(l, p, q, j);
    }
    forall p, j | 0 <= p < |r| && 0 <= j < |l| && l[j] !in r ensures OccursBefore(l, j, r[p]) {
      assert all[..|r|] == r;
      var q := PlaceBehind(all, |r|, l[j]);
      FirstOnlyOrder(l, p, q, j);
    }
  }

  lemma LastPair<T(!new)>(l: seq<T>, cut: nat, p: nat, q: nat, i: nat)
    requires cut <= |LastOnly(l)| && p < q < |LastOnly(l)| - cut && i < |l| && l[i] == LastOnly(l)[cut..][p]
    ensures OccursBehind(l, i, LastOnly(l)[cut..][q])
  {
    var all := LastOnly(l);
    assert all[cut..][p] == all[cut + p] && all[cut..][q] == all[cut + q];
    LastOnlyOrder(l, cut + p, cut + q, i);
  }

  lemma LeftOutBefore<T(!new)>(l: seq<T>, cut: nat, q: nat, i: nat)
    requires cut <= |LastOnly(l)| && q < |LastOnly(l)| - cut && i < |l| && l[i] !in LastOnly(l)[cut..]
    ensures OccursBehind(l, i, LastOnly(l)[cut..][q])
  {
    LastOnlyFacts(l);
    var p := PlaceBefore(LastOnly(l), cut, l[i]);
    LastOnlyOrder(l, p, cut + q, i);
  }

  lemma SuffixIsLastMet<T(!new)>(l: seq<T>, cut: nat)
    requires cut <= |LastOnly(l)|
    ensures LastMet(l, LastOnly(l)[cut..])
  {
    var r := LastOnly(l)[cut..];
    forall p, q, i | 0 <= p < q < |r| && 0 <= i < |l| && l[i] == r[p] ensures OccursBehind(l, i, r[q]) {
      LastPair(l, cut, p, q, i);
    }
    forall q, i | 0 <= q < |r| && 0 <= i < |l| && l[i] !in r ensures OccursBehind(l, i, r[q]) {
      LeftOutBefore(l, cut, q, i);
    }
  }

  lemma LastsAreLastMet<T(!new)>(l: seq<T>, n: nat)
    ensures LastMet(l, LastN(LastOnly(l), n))
  {
    var all := LastOnly(l);
    SuffixIsLastMet(l, if |all| <= n then 0 else |all| - n);
    assert all[0..] == all;
  }

  lemma LastsAreMembers<T(!new)>(l: seq<T>, n: nat)
    ensures var r := LastN(LastOnly(l), n);
            (forall x :: x in r ==> x in l) && ((forall x :: x in l ==> x in r) || |r| == n)
  {
    LastOnlyFacts(l);
    assert forall x :: x in LastN(LastOnly(l), n) ==> x in LastOnly(l);
  }
}
