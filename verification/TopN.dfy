/** The n best elements of a finite set under a strict total order, and why trimming early is harmless. */
module TopN {

  ghost predicate StrictTotal<T(!new)>(above: (T, T) -> bool) {
    && (forall x :: !above(x, x))
    && (forall x, y :: x != y ==> above(x, y) || above(y, x))
    && (forall x, y, z :: above(x, y) && above(y, z) ==> above(x, z))
  }

  function SetOf<T(==)>(s: seq<T>): set<T> {
    set x | x in s
  }

  function Better<T(==)>(s: set<T>, above: (T, T) -> bool, x: T): set<T> {
    set y | y in s && above(y, x)
  }

  function Top<T(==)>(s: set<T>, above: (T, T) -> bool, n: nat): set<T> {
    set x | x in s && |Better(s, above, x)| < n
  }

  lemma SubsetCard<T>(a: set<T>, b: set<T>)
    requires a <= b
    ensures |a| <= |b|
    ensures |a| == |b| ==> a == b
  {
    assert b == a + (b - a);
  }

  lemma BetterMonotone<T>(s: set<T>, t: set<T>, above: (T, T) -> bool, x: T)
    requires s <= t
    ensures |Better(s, above, x)| <= |Better(t, above, x)|
  {
    SubsetCard(Better(s, above, x), Better(t, above, x));
  }

  lemma {:induction false} LowestExists<T(!new)>(s: set<T>, above: (T, T) -> bool) returns (m: T)
    requires StrictTotal(above) && s != {}
    ensures m in s && forall y :: y in s && y != m ==> above(y, m)
    decreases |s|
  {
    var x :| x in s;
    var rest := s - {x};
    if rest == {} {
      m := x;
      assert s == {x};
    } else {
      var k := LowestExists(rest, above);
      m := if above(x, k) then k else x;
      forall y | y in s && y != m ensures above(y, m) {
        LowerOfTwo(above, x, k, y);
      }
    }
  }

  lemma LowerOfTwo<T(!new)>(above: (T, T) -> bool, x: T, k: T, y: T)
    requires StrictTotal(above) && x != k && (y == x || y == k || above(y, k))
    ensures var m := if above(x, k) then k else x; y != m ==> above(y, m)
  {
    assert above(x, k) || above(k, x);
  }

  lemma TopDropsLowest<T(!new)>(s: set<T>, above: (T, T) -> bool, n: nat, m: T)
    requires StrictTotal(above) && m in s && forall y :: y in s && y != m ==> above(y, m)
    ensures Top(s, above, n) == Top(s - {m}, above, n) + (if |s| <= n then {m} else {})
  {
    var rest := s - {m};
    forall x | x in rest ensures Better(rest, above, x) == Better(s, above, x) {
      assert above(x, m) && !above(m, x);
    }
    assert Better(s, above, m) == rest;
  }

  lemma {:induction false} TopSize<T(!new)>(s: set<T>, above: (T, T) -> bool, n: nat)
    requires StrictTotal(above)
    ensures |Top(s, above, n)| == if |s| <= n then |s| else n
    decreases |s|
  {
    if s != {} {
      var m := LowestExists(s, above);
      var rest := s - {m};
      TopSize(rest, above, n);
      TopDropsLowest(s, above, n, m);
      assert m !in Top(rest, above, n);
    } else {
      assert Top(s, above, n) == {};
    }
  }

  // An element that was cut has n better ones among those that were kept.
  lemma CutBehindKept<T(!new)>(s: set<T>, above: (T, T) -> bool, n: nat, x: T)
    requires StrictTotal(above) && |Better(s, above, x)| >= n
    ensures |Better(Top(s, above, n), above, x)| >= n
  {
    var u := Better(s, above, x);
    TopSize(u, above, n);
    forall y | y in Top(u, above, n) ensures y in Better(Top(s, above, n), above, x) {
      assert Better(s, above, y) == Better(u, above, y) by {
        forall z | z in s && above(z, y) ensures z in u {
          assert above(z, y) && above(y, x);
        }
      }
    }
    SubsetCard(Top(u, above, n), Better(Top(s, above, n), above, x));
  }

  // Trimming before adding more gives the same result as trimming once at the end.
  lemma TopOfUnion<T(!new)>(a: set<T>, b: set<T>, above: (T, T) -> bool, n: nat)
    requires StrictTotal(above)
    ensures Top(Top(a, above, n) + b, above, n) == Top(a + b, above, n)
  {
    var t := Top(a, above, n) + b;
    forall x | x in Top(a + b, above, n) ensures x in Top(t, above, n) {
      BetterMonotone(a, a + b, above, x);
      BetterMonotone(t, a + b, above, x);
    }
    forall x | x in Top(t, above, n) ensures x in Top(a + b, above, n) {
      if |Better(a + b, above, x)| >= n {
        KeptElementsSuffice(a, b, above, n, x);
      }
    }
  }

  lemma KeptElementsSuffice<T(!new)>(a: set<T>, b: set<T>, above: (T, T) -> bool, n: nat, x: T)
    requires StrictTotal(above) && |Better(a + b, above, x)| >= n
    ensures |Better(Top(a, above, n) + b, above, x)| >= n
  {
    var t := Top(a, above, n) + b;
    if Better(a, above, x) <= Top(a, above, n) {
      assert Better(t, above, x) >= Better(a + b, above, x);
      SubsetCard(Better(a + b, above, x), Better(t, above, x));
    } else {
      var z :| z in Better(a, above, x) && z !in Top(a, above, n);
      CutBehindKept(a, above, n, z);
      var k := Better(Top(a, above, n), above, z);
      forall y | y in k ensures y in Better(t, above, x) {
        assert above(y, z) && above(z, x);
      }
      SubsetCard(k, Better(t, above, x));
    }
  }

  lemma TopIsFixed<T(!new)>(s: set<T>, above: (T, T) -> bool, n: nat)
    requires StrictTotal(above) && |s| <= n
    ensures Top(s, above, n) == s
  {
    TopSize(s, above, n);
    SubsetCard(Top(s, above, n), s);
  }

  // Elements below the lowest kept one do not change what is kept.
  lemma TopIgnoresLower<T(!new)>(s: set<T>, extra: set<T>, above: (T, T) -> bool, n: nat, last: T)
    requires StrictTotal(above) && |s| >= n
    requires forall x :: x in Top(s, above, n) ==> x == last || above(x, last)
    requires forall y :: y in extra ==> y in s || above(last, y)
    ensures Top(s + extra, above, n) == Top(s, above, n)
  {
    var kept, all := Top(s, above, n), Top(s + extra, above, n);
    forall x | x in kept ensures x in all {
      forall y | y in extra && y !in s ensures above(x, y) && !above(y, x) {
        assert above(last, y);
        assert x == last || above(x, last);
        assert !above(x, x);
      }
      SubsetCard(Better(s + extra, above, x), Better(s, above, x));
    }
    TopSize(s, above, n);
    TopSize(s + extra, above, n);
    SubsetCard(s, s + extra);
    SubsetCard(kept, all);
  }

  ghost predicate Descending<T>(s: seq<T>, above: (T, T) -> bool) {
    forall i, j :: 0 <= i < j < |s| ==> above(s[i], s[j])
  }

  // The first n of a descending sequence are the n best.
  lemma PrefixIsTop<T(!new)>(s: seq<T>, above: (T, T) -> bool, n: nat)
    requires StrictTotal(above) && Descending(s, above) && n <= |s|
    ensures SetOf(s[..n]) == Top(SetOf(s), above, n)
    ensures |SetOf(s)| == |s|
  {
    forall i | 0 <= i < |s| ensures Better(SetOf(s), above, s[i]) == SetOf(s[..i]) && |SetOf(s[..i])| == i {
      SizeOfPrefix(s, i);
    }
    forall x | x in SetOf(s) ensures x in SetOf(s[..n]) <==> x in Top(SetOf(s), above, n) {
      var i :| 0 <= i < |s| && s[i] == x;
      IndexInPrefix(s, above, i, n);
    }
    SizeOfPrefix(s, |s|);
    assert s[..|s|] == s;
  }

  lemma IndexInPrefix<T(!new)>(s: seq<T>, above: (T, T) -> bool, i: nat, n: nat)
    requires StrictTotal(above) && Descending(s, above) && n <= |s| && i < |s|
    ensures s[i] in s[..n] <==> i < n
  {
    if i < n {
      assert s[..n][i] == s[i];
    } else {
      assert forall j :: 0 <= j < n ==> above(s[j], s[i]) && s[..n][j] != s[i];
    }
  }

  ghost predicate NoRepeats<T>(s: seq<T>) {
    forall i :: 0 <= i < |s| ==> s[i] !in s[..i]
  }

  lemma {:induction false} SizeOfPrefix<T>(s: seq<T>, i: nat)
    requires NoRepeats(s) && i <= |s|
    ensures |SetOf(s[..i])| == i
  {
    if i > 0 {
      SizeOfPrefix(s, i - 1);
      assert s[..i] == s[..i - 1] + [s[i - 1]];
      SetOfAppend(s[..i - 1], s[i - 1]);
    }
  }

  lemma SetOfAppend<T>(s: seq<T>, x: T)
    requires x !in s
    ensures |SetOf(s + [x])| == |SetOf(s)| + 1
  {
    assert SetOf(s + [x]) == SetOf(s) + {x};
  }
}
