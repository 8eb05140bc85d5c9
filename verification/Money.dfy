/** Recharge amounts as text (wallet/rules.go parseDigits, parseYuanAmount, formatYuan). */
module Money {
  import opened Wrappers
  import opened GoText

  // parseDigits rejects the empty string.
  function DigitsOf(s: string): Option<int> {
    if s == "" then None
    else match DigitsValue(s)
      case Some(n) => Some(n)
      case None => None
  }

  method ParseDigits(s: string) returns (r: Option<int>)
    ensures r == DigitsOf(s)
  {
    if s == "" {
      return None;
    }
    var n: nat := 0;
    for i := 0 to |s|
      invariant DigitsValue(s[..i]) == Some(n)
    {
      assert s[..i + 1][..i] == s[..i];
      if s[i] < '0' || s[i] > '9' {
        NonDigitHasNoValue(s, i);
        return None;
      }
      n := n * 10 + (s[i] as int - 48);
    }
    assert s[..|s|] == s;
    r := Some(n);
  }

  // strings.Cut(s, "."): the part before the first dot and, if there is one, the part after it.
  function Cut(s: string): (string, Option<string>) {
    if s == "" then ("", None)
    else if s[0] == '.' then ("", Some(s[1..]))
    else
      var (whole, frac) := Cut(s[1..]);
      ([s[0]] + whole, frac)
  }

  function Negate(neg: bool, n: Option<int>): Option<int> {
    match n
    case Some(v) => Some(if neg then -v else v)
    case None => None
  }

  function YuanAmount(raw: string): Option<int> {
    var s := Trim(raw);
    if s == "" then None
    else
      var neg := s[0] == '-';
      var (whole, frac) := Cut(if neg then s[1..] else s);
      if frac == None || frac == Some("") then Negate(neg, DigitsOf(whole))
      else if |frac.value| > 2 then None
      else if (if |frac.value| < 2 then frac.value + "0" else frac.value) != "00" then None
      else Negate(neg, DigitsOf(whole))
  }

  method ParseYuanAmount(raw: string) returns (r: Option<int>)
    ensures r == YuanAmount(raw)
  {
    var s := Trim(raw);
    if s == "" {
      return None;
    }
    var neg := false;
    if s[0] == '-' {
      neg := true;
      s := s[1..];
    }
    var (whole, rest) := Cut(s);
    if rest.Some? && rest.value != "" {
      var frac := rest.value;
      if |frac| > 2 {
        return None;
      }
      while |frac| < 2
        invariant 1 <= |rest.value| <= |frac| <= 2
        invariant frac == rest.value || (|rest.value| == 1 && frac == rest.value + "0")
        decreases 2 - |frac|
      {
        frac := frac + "0";
      }
      if frac != "00" {
        return None;
      }
    }
    var n := ParseDigits(whole);
    r := Negate(neg, n);
  }

  // fmt.Sprintf("%d.00", yuan)
  function FormatYuan(yuan: int): string {
    (if yuan < 0 then "-" + Decimal(-yuan) else Decimal(yuan)) + ".00"
  }

  predicate NoDot(s: string) {
    forall i :: 0 <= i < |s| ==> s[i] != '.'
  }

  lemma {:induction false} CutAtDot(whole: string, frac: string)
    requires NoDot(whole)
    ensures Cut(whole + "." + frac) == (whole, Some(frac))
  {
    if whole == "" {
      assert ("" + "." + frac)[1..] == frac;
    } else {
      CutAtDot(whole[1..], frac);
      assert (whole + "." + frac)[1..] == whole[1..] + "." + frac;
      assert [whole[0]] + whole[1..] == whole;
    }
  }

  lemma {:induction false} CutNoDot(s: string)
    requires NoDot(s)
    ensures Cut(s) == (s, None)
  {
    if s != "" {
      CutNoDot(s[1..]);
      assert [s[0]] + s[1..] == s;
    }
  }

  lemma {:induction false} CutJoins(s: string)
    ensures var (whole, frac) := Cut(s); s == whole + match frac case None => "" case Some(f) => "." + f
  {
    if s != "" && s[0] != '.' {
      CutJoins(s[1..]);
      var (whole, frac) := Cut(s[1..]);
      assert s == [s[0]] + s[1..];
    }
  }

  // ---------------------------------------------------------------- which texts are amounts

  function Sign(neg: bool): string {
    if neg then "-" else ""
  }

  predicate IsTail(tail: string) {
    tail == "" || tail == "." || tail == ".0" || tail == ".00"
  }

  // An optional minus, digits, and no fraction but zeros: "12", "-12.", "12.0", "12.00".
  ghost predicate Spells(s: string, neg: bool, digits: string, tail: string) {
    s == Sign(neg) + (digits + tail) && digits != "" && AllDigits(digits) && IsTail(tail)
  }

  ghost predicate Denotes(s: string, neg: bool, digits: string, tail: string, n: int) {
    Spells(s, neg, digits, tail) && DigitsValue(digits) == Some(if neg then -n else n)
  }

  function TailOf(frac: Option<string>): string {
    match frac case None => "" case Some(f) => "." + f
  }

  lemma CutSpelling(digits: string, tail: string)
    requires AllDigits(digits) && IsTail(tail)
    ensures Cut(digits + tail) == (digits, if tail == "" then None else Some(tail[1..]))
  {
    if tail == "" {
      assert digits + tail == digits;
      CutNoDot(digits);
    } else {
      assert tail == "." + tail[1..];
      assert digits + tail == digits + "." + tail[1..];
      CutAtDot(digits, tail[1..]);
    }
  }

  lemma FractionOfTail(tail: string)
    requires IsTail(tail) && tail != ""
    ensures tail[1..] == "" || tail[1..] == "0" || tail[1..] == "00"
  {
    assert tail == ".0" ==> tail[1..] == "0";
    assert tail == ".00" ==> tail[1..] == "00";
  }

  lemma SpellingIsAccepted(raw: string, neg: bool, digits: string, tail: string, n: int)
    requires Denotes(Trim(raw), neg, digits, tail, n)
    ensures YuanAmount(raw) == Some(n)
  {
    var s, rest := Trim(raw), digits + tail;
    assert rest[0] == digits[0];
    assert (if neg then s[1..] else s) == rest;
    assert neg == (s[0] == '-');
    CutSpelling(digits, tail);
    assert DigitsOf(digits) == DigitsValue(digits);
    if tail != "" {
      FractionOfTail(tail);
    }
    var frac := Cut(rest).1;
    assert frac == None || frac == Some("") || frac == Some("0") || frac == Some("00");
    assert "0" + "0" == "00";
  }

  lemma ZeroFraction(frac: Option<string>)
    requires frac == None || frac == Some("")
             || (|frac.value| <= 2 && (if |frac.value| < 2 then frac.value + "0" else frac.value) == "00")
    ensures IsTail(TailOf(frac))
  {
    if frac.Some? && |frac.value| == 1 {
      assert frac.value[0] == (frac.value + "0")[0];
      assert frac.value == "0";
      assert "." + "0" == ".0";
    } else if frac == Some("") {
      assert "." + "" == ".";
    } else if frac.Some? {
      assert frac.value == "00";
      assert "." + "00" == ".00";
    }
  }

  lemma AcceptedIsSpelling(raw: string, n: int) returns (neg: bool, digits: string, tail: string)
    requires YuanAmount(raw) == Some(n)
    ensures Denotes(Trim(raw), neg, digits, tail, n)
  {
    var s := Trim(raw);
    neg := s[0] == '-';
    var rest := if neg then s[1..] else s;
    var (whole, frac) := Cut(rest);
    digits, tail := whole, TailOf(frac);
    CutJoins(rest);
    assert DigitsOf(whole).Some?;
    DigitsHaveValue(whole);
    ZeroFraction(frac);
    assert s == Sign(neg) + rest;
    assert rest == digits + tail;
  }

  // Exactly these texts, between any white space, are accepted, with the number their digits and sign denote.
  lemma AcceptedTexts(raw: string, n: int)
    ensures YuanAmount(raw) == Some(n) <==> exists neg, digits, tail :: Denotes(Trim(raw), neg, digits, tail, n)
  {
    if YuanAmount(raw) == Some(n) {
      var neg, digits, tail := AcceptedIsSpelling(raw, n);
    }
    forall neg, digits, tail | Denotes(Trim(raw), neg, digits, tail, n) ensures YuanAmount(raw) == Some(n) {
      SpellingIsAccepted(raw, neg, digits, tail, n);
    }
  }

  // Every amount the service formats is read back as itself, so the amount check in creditPaid cannot misfire.
  lemma ParseFormatted(yuan: int)
    ensures YuanAmount(FormatYuan(yuan)) == Some(yuan)
  {
    var neg, s := yuan < 0, FormatYuan(yuan);
    var digits := Decimal(if neg then -yuan else yuan);
    TrimFacts(s);
    assert Trimmed(s);
    DigitsValueOfDecimal(if neg then -yuan else yuan);
    assert s == Sign(neg) + (digits + ".00");
    SpellingIsAccepted(s, neg, digits, ".00", yuan);
  }
}
