/**
 Which ids a sorted set ranks below a given one at equal scores: Redis compares the decimal texts, so 100 stands below
 15. Below a power of ten stand only the smaller ones; below any other number stand arbitrarily large ids.
*/
module DecimalOrder {
  import opened GoText
  import opened Inbox

  predicate IsPowerOfTen(n: nat) {
    n == 1 || (n >= 10 && n % 10 == 0 && IsPowerOfTen(n / 10))
  }

  function Pow10(k: nat): (p: nat)
    ensures p > k && IsPowerOfTen(p)
  {
    if k == 0 then 1 else 10 * Pow10(k - 1)
  }

  // ---------------------------------------------------------------- texts

  lemma {:induction false} LexByDominance(a: string, b: string)
    requires |a| >= |b| && forall j :: 0 <= j < |b| ==> a[j] <= b[j]
    requires exists j :: 0 <= j < |b| && a[j] < b[j]
    ensures LexLess(a, b)
  {
    if a[0] == b[0] {
      var j :| 0 <= j < |b| && a[j] < b[j];
      assert a[1..][j - 1] < b[1..][j - 1];
      LexByDominance(a[1..], b[1..]);
    }
  }

  lemma {:induction false} LexByPrefix(a: string, b: string)
    requires |a| < |b| && forall j :: 0 <= j < |a| ==> a[j] == b[j]
    ensures LexLess(a, b)
  {
    if a != "" {
      LexByPrefix(a[1..], b[1..]);
    }
  }

  // Below a text no digit of which is above its own, only a prefix of it can stand.
  lemma {:induction false} BelowTheLeast(a: string, b: string)
    requires LexLess(a, b) && forall j :: 0 <= j < |a| && j < |b| ==> a[j] >= b[j]
    ensures |a| < |b| && forall j :: 0 <= j < |a| ==> a[j] == b[j]
  {
    if a != "" {
      BelowTheLeast(a[1..], b[1..]);
      assert forall j :: 0 < j < |a| ==> a[j] == a[1..][j - 1] && b[j] == b[1..][j - 1];
    }
  }

  // ---------------------------------------------------------------- decimal texts

  lemma {:induction false} FirstDigit(n: nat)
    requires n > 0
    ensures Decimal(n)[0] >= '1'
  {
    if n >= 10 {
      FirstDigit(n / 10);
      assert Decimal(n)[0] == Decimal(n / 10)[0];
    }
  }

  lemma {:induction false} PowerText(n: nat)
    requires IsPowerOfTen(n)
    ensures Decimal(n)[0] == '1' && forall j :: 1 <= j < |Decimal(n)| ==> Decimal(n)[j] == '0'
  {
    if n >= 10 {
      PowerText(n / 10);
      assert Decimal(n) == Decimal(n / 10) + ['0'];
    }
  }

  ghost predicate HasMore(t: string) {
    t != "" && (t[0] > '1' || exists j :: 1 <= j < |t| && t[j] > '0')
  }

  lemma {:induction false} NonPowerText(n: nat)
    requires n > 0 && !IsPowerOfTen(n)
    ensures HasMore(Decimal(n))
  {
    if n >= 10 {
      var t := Decimal(n);
      var front := Decimal(n / 10);
      assert t == front + [DigitChar(n % 10)];
      if n % 10 == 0 {
        NonPowerText(n / 10);
        if front[0] > '1' {
          assert t[0] > '1';
        } else {
          var j :| 1 <= j < |front| && front[j] > '0';
          assert t[j] > '0';
        }
      } else {
        assert t[|t| - 1] > '0';
      }
    }
  }

  lemma {:induction false} LongerIsLarger(a: nat, b: nat)
    requires a <= b
    ensures |Decimal(a)| <= |Decimal(b)|
  {
    if b >= 10 && a >= 10 {
      LongerIsLarger(a / 10, b / 10);
    }
  }

  lemma {:induction false} PowerLength(k: nat)
    ensures |Decimal(Pow10(k))| == k + 1
  {
    if k > 0 {
      PowerLength(k - 1);
      assert Pow10(k) / 10 == Pow10(k - 1);
    }
  }

  // ---------------------------------------------------------------- what stands below

  // Below a number that is no power of ten stand all powers of ten that are long enough.
  lemma LongPowerIsBelow(k: nat, n: nat)
    requires n > 0 && !IsPowerOfTen(n) && |Decimal(n)| <= k + 1
    ensures LexLess(Decimal(Pow10(k)), Decimal(n))
  {
    var a, b := Decimal(Pow10(k)), Decimal(n);
    PowerLength(k);
    PowerText(Pow10(k));
    FirstDigit(n);
    NonPowerText(n);
    if b[0] > '1' {
      assert a[0] < b[0];
    } else {
      var j :| 1 <= j < |b| && b[j] > '0';
      assert a[j] < b[j];
    }
    LexByDominance(a, b);
  }

  // Below a power of ten stand the smaller powers of ten and nothing else.
  lemma BelowAPower(x: nat, n: nat)
    requires x > 0 && IsPowerOfTen(n)
    ensures LexLess(Decimal(x), Decimal(n)) <==> IsPowerOfTen(x) && x < n
  {
    if LexLess(Decimal(x), Decimal(n)) {
      BelowIsPower(x, n);
    }
    if IsPowerOfTen(x) && x < n {
      PowerIsBelow(x, n);
    }
  }

  lemma BelowIsPower(x: nat, n: nat)
    requires x > 0 && IsPowerOfTen(n) && LexLess(Decimal(x), Decimal(n))
    ensures IsPowerOfTen(x) && x < n
  {
    var a, b := Decimal(x), Decimal(n);
    PowerText(n);
    FirstDigit(x);
    BelowTheLeast(a, b);
    if !IsPowerOfTen(x) {
      NonPowerText(x);
    }
    if n <= x {
      LongerIsLarger(n, x);
    }
  }

  lemma PowerIsBelow(x: nat, n: nat)
    requires IsPowerOfTen(x) && IsPowerOfTen(n) && x < n
    ensures LexLess(Decimal(x), Decimal(n))
  {
    PowerText(x);
    PowerText(n);
    LongerIsLarger(x, n);
    DigitsValueOfDecimal(x);
    DigitsValueOfDecimal(n);
    assert |Decimal(x)| == |Decimal(n)| ==> Decimal(x) == Decimal(n);
    LexByPrefix(Decimal(x), Decimal(n));
  }
}
