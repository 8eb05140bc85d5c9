/**
 Share codes (video/sharecode.go): a video id is multiplied by an odd constant modulo 2^35,
 written as seven base-32 symbols and followed by one weighted checksum symbol.

 A Go string is modelled as a `string` whose characters are its bytes; the text given to the decoder is
 a `string` of Unicode code points, as the `range` loop of `normalizeShareCode` sees it.
*/
module ShareCode {
  import opened Sums
  import opened Wrappers
  import opened ModArith

  datatype ShareError = Unsupported | InvalidCode

  type Symbol = n: nat | n < 32

  // uint64 arithmetic wraps at WORD; the payload lives in 35 bits.
  const WORD := 0x1_0000_0000_0000_0000
  const MIX_SIZE := 0x8_0000_0000
  const MIX_MULTIPLIER := 0x9E37_79B1
  const PAYLOAD_LEN := 7
  const CODE_LEN := 8
  const ALPHABET := "0123456789ABCDEFGHJKMNPQRSTVWXYZ"

  // ---------------------------------------------------------------- the mixing inverse

  // One Newton step in wrapping uint64 arithmetic: inv *= 2 - m*inv.
  function NewtonStep(m: nat, inv: nat): nat {
    (inv * ((2 - (m * inv) % WORD) % WORD)) % WORD
  }

  function Newton(m: nat, steps: nat): nat {
    if steps == 0 then m else NewtonStep(m, Newton(m, steps - 1))
  }

  // The modulus at which the inverse is already right after that many steps: the number of correct
  // low bits starts at 3 and doubles until it covers the word.
  function Precision(steps: nat): nat
    requires steps <= 5
  {
    [8, 64, 4096, 0x100_0000, 0x1_0000_0000_0000, WORD][steps]
  }

  lemma WrapIsShift(x: int)
    ensures x % WORD == x - (x / WORD) * WORD
  {}

  // Wrapping only subtracts a multiple of the word.
  lemma NewtonStepWraps(m: int, inv: int) returns (k: int, d: int)
    requires inv >= 0 && m >= 0
    ensures NewtonStep(m, inv) == inv * (2 - m * inv + k * WORD) - d * WORD
  {
    var two := 2 - (m * inv) % WORD;
    k := (m * inv) / WORD - two / WORD;
    d := (inv * (two % WORD)) / WORD;
    WrapIsShift(m * inv);
    WrapIsShift(two);
    WrapIsShift(inv * (two % WORD));
    assert two % WORD == 2 - m * inv + k * WORD;
  }

  lemma MulThrough(m: int, inv: int, x: int, k: int, d: int)
    ensures m * (inv * (x + k * WORD) - d * WORD) == (m * inv) * x + ((m * inv) * k - m * d) * WORD
  {
    var y := x + k * WORD;
    assert m * (inv * y - d * WORD) == m * (inv * y) - (m * d) * WORD;
    assert m * (inv * y) == (m * inv) * y;
    assert (m * inv) * y == (m * inv) * x + ((m * inv) * k) * WORD;
  }

  // m*inv == 1 + e*p makes the next product 1 - e^2*p^2 plus a multiple of the word.
  lemma NewtonStepIsExact(m: int, inv: int, e: int, p: int) returns (c: int)
    requires m * inv == 1 + e * p && inv >= 0 && m >= 0
    ensures m * NewtonStep(m, inv) == 1 - (e * e) * (p * p) + c * WORD
  {
    var k, d := NewtonStepWraps(m, inv);
    var y := e * p;
    MulThrough(m, inv, 1 - y, k, d);
    c := (m * inv) * k - m * d;
    OnePlusMinus(m * inv, y);
    MulSquare(e, p);
  }

  lemma OnePlusMinus(x: int, y: int)
    requires x == 1 + y
    ensures x * (1 - y) == 1 - y * y
  {}

  lemma MulSquare(a: int, b: int)
    ensures (a * b) * (a * b) == (a * a) * (b * b)
  {
    calc {
      (a * b) * (a * b);
      a * (b * (a * b));
      a * (a * (b * b));
      (a * a) * (b * b);
    }
  }

  lemma PrecisionGrows(steps: nat) returns (square: nat, whole: nat)
    requires steps < 5
    ensures Precision(steps) * Precision(steps) == square * Precision(steps + 1)
    ensures WORD == whole * Precision(steps + 1)
  {
    square := if steps == 4 then 0x1_0000_0000 else 1;
    whole := WORD / Precision(steps + 1);
  }

  lemma {:induction false} OddSquare(m: nat) returns (e: int)
    requires m % 2 == 1
    ensures m * m == 1 + e * 8
  {
    if m == 1 {
      e := 0;
    } else {
      var e' := OddSquare(m - 2);
      SquareStep(m);
      e := e' + m / 2;
    }
  }

  lemma SquareStep(m: int)
    ensures m * m == (m - 2) * (m - 2) + 4 * m - 4
  {}

  // Each step doubles the number of correct low bits, for every odd multiplier.
  lemma {:induction false} NewtonDoubles(m: nat, steps: nat) returns (e: int)
    requires m % 2 == 1 && steps <= 5
    ensures m * Newton(m, steps) == 1 + e * Precision(steps)
  {
    if steps == 0 {
      e := OddSquare(m);
    } else {
      var p, p' := Precision(steps - 1), Precision(steps);
      var inv := Newton(m, steps - 1);
      var e0 := NewtonDoubles(m, steps - 1);
      var c := NewtonStepIsExact(m, inv, e0, p);
      var square, whole := PrecisionGrows(steps - 1);
      e := c * whole - e0 * e0 * square;
      assert (e0 * e0) * (p * p) == (e0 * e0 * square) * p' by {
        assert p * p == square * p';
        MulAssoc(e0 * e0, square, p');
      }
      assert c * WORD == (c * whole) * p' by { MulAssoc(c, whole, p'); }
      MulDistribute(c * whole, e0 * e0 * square, p');
    }
  }

  lemma MulAssoc(a: int, b: int, c: int)
    ensures a * (b * c) == (a * b) * c
  {}

  lemma MulDistribute(a: int, b: int, c: int)
    ensures (a - b) * c == a * c - b * c
  {}

  lemma NewtonInverts(m: nat)
    requires m % 2 == 1
    ensures (m * Newton(m, 5)) % WORD == 1
    ensures (m * (Newton(m, 5) % MIX_SIZE)) % MIX_SIZE == 1
  {
    var e := NewtonDoubles(m, 5);
    ModShift(1, e, WORD);
    var inv := Newton(m, 5);
    var r, q := inv % MIX_SIZE, inv / MIX_SIZE;
    assert m * r == 1 + (e * 0x2000_0000 - m * q) * MIX_SIZE by {
      assert inv == r + q * MIX_SIZE;
      assert m * inv == m * r + (m * q) * MIX_SIZE by {
        assert m * (r + q * MIX_SIZE) == m * r + m * (q * MIX_SIZE);
        MulAssoc(m, q, MIX_SIZE);
      }
    }
    ModShift(1, e * 0x2000_0000 - m * q, MIX_SIZE);
  }

  function MixInverse(): nat {
    Newton(MIX_MULTIPLIER, 5) % MIX_SIZE
  }

  method ComputeMixInverse() returns (inv: nat)
    ensures inv == MixInverse() && inv < MIX_SIZE
    ensures (MIX_MULTIPLIER * inv) % MIX_SIZE == 1
  {
    inv := MIX_MULTIPLIER;
    for i := 0 to 5
      invariant inv == Newton(MIX_MULTIPLIER, i)
    {
      inv := (inv * ((2 - (MIX_MULTIPLIER * inv) % WORD) % WORD)) % WORD;
    }
    NewtonInverts(MIX_MULTIPLIER);
    inv := inv % MIX_SIZE;
  }

  // ---------------------------------------------------------------- base-32 digits

  function Pow32(n: nat): (p: nat)
    ensures p > 0
  {
    if n == 0 then 1 else 32 * Pow32(n - 1)
  }

  // The last n base-32 digits of x, most significant first.
  function Digits(x: nat, n: nat): (v: seq<Symbol>)
    ensures |v| == n
  {
    if n == 0 then [] else Digits(x / 32, n - 1) + [x % 32]
  }

  function Value(v: seq<Symbol>): nat {
    if v == [] then 0 else Value(v[..|v| - 1]) * 32 + v[|v| - 1]
  }

  lemma {:induction false} ValueOfDigits(x: nat, n: nat)
    requires x < Pow32(n)
    ensures Value(Digits(x, n)) == x
  {
    if n > 0 {
      ValueOfDigits(x / 32, n - 1);
      var v := Digits(x, n);
      assert v[..n - 1] == Digits(x / 32, n - 1);
    }
  }

  lemma {:induction false} DigitsOfValue(v: seq<Symbol>)
    ensures Value(v) < Pow32(|v|)
    ensures Digits(Value(v), |v|) == v
  {
    if v != [] {
      var front := v[..|v| - 1];
      DigitsOfValue(front);
      assert v == front + [v[|v| - 1]];
    }
  }

  // ---------------------------------------------------------------- checksum

  // Position i weighs 2*i + 1.
  function WeightedSum(v: seq<Symbol>): int {
    if v == [] then 0 else WeightedSum(v[..|v| - 1]) + Times(2 * (|v| - 1) + 1, v[|v| - 1])
  }

  function Checksum(v: seq<Symbol>): Symbol {
    WeightedSum(v) % 32
  }

  method ShareChecksum(values: seq<Symbol>) returns (sum: Symbol)
    ensures sum == Checksum(values)
  {
    var acc := 0;
    for i := 0 to |values|
      invariant acc == WeightedSum(values[..i])
    {
      assert values[..i + 1][..i] == values[..i];
      TimesIsProduct(2 * i + 1, values[i]);
      acc := acc + (2 * i + 1) * values[i];
    }
    assert values[..|values|] == values;
    sum := acc % 32;
  }

  lemma {:induction false} UpdateMovesSum(v: seq<Symbol>, k: nat, x: Symbol)
    requires k < |v|
    ensures WeightedSum(v[k := x]) == WeightedSum(v) + Times(2 * k + 1, x as int - v[k] as int)
  {
    var n := |v| - 1;
    var w := v[k := x];
    if k < n {
      UpdateMovesSum(v[..n], k, x);
      assert w[..n] == v[..n][k := x];
    } else {
      assert w[..n] == v[..n];
      TimesMinus(2 * n + 1, x, v[n]);
    }
  }

  lemma {:induction false} ValueIsZero(v: seq<Symbol>)
    ensures Value(v) == 0 <==> forall i :: 0 <= i < |v| ==> v[i] == 0
  {
    if v != [] {
      ValueIsZero(v[..|v| - 1]);
    }
  }

  // ---------------------------------------------------------------- alphabet

  // shareAlphabet[v], by its runs of consecutive letters.
  function Letter(v: Symbol): char {
    var n: int := v;
    if n < 10 then (48 + n) as char            // 0-9
    else if n < 18 then (55 + n) as char       // A-H
    else if n < 20 then (56 + n) as char       // J K
    else if n < 22 then (57 + n) as char       // M N
    else if n < 27 then (58 + n) as char       // P-T
    else (59 + n) as char                      // V-Z
  }

  lemma LetterSpellsTheAlphabet(v: Symbol)
    ensures Letter(v) == ALPHABET[v]
  {}

  function CharValueFrom(c: char, from: nat): (r: Option<Symbol>)
    requires from <= 32
    ensures match r
            case Some(v) => from <= v && Letter(v) == c
            case None => forall i: Symbol :: from <= i ==> Letter(i) != c
    decreases 32 - from
  {
    if from == 32 then None else if Letter(from) == c then Some(from) else CharValueFrom(c, from + 1)
  }

  // strings.IndexByte(shareAlphabet, c)
  function CharValue(c: char): Option<Symbol> {
    CharValueFrom(c, 0)
  }

  lemma CharValueInverts(v: Symbol)
    ensures CharValue(Letter(v)) == Some(v)
  {
    var r := CharValue(Letter(v));
    assert r.Some? && Letter(r.value) == Letter(v);
  }

  // ---------------------------------------------------------------- normalization

  // WriteRune: the UTF-8 bytes of a code point.
  function Utf8(c: char): string {
    var n := c as int;
    if n < 0x80 then [c]
    else if n < 0x800 then [(0xC0 + n / 64) as char, (0x80 + n % 64) as char]
    else if n < 0x10000 then [(0xE0 + n / 4096) as char, (0x80 + n / 64 % 64) as char, (0x80 + n % 64) as char]
    else [(0xF0 + n / 262144) as char, (0x80 + n / 4096 % 64) as char, (0x80 + n / 64 % 64) as char,
          (0x80 + n % 64) as char]
  }

  function NormalizeRune(c: char): string {
    if c == '-' || c == ' ' then ""
    else if c == 'i' || c == 'I' || c == 'l' || c == 'L' then "1"
    else if c == 'o' || c == 'O' then "0"
    else if 'a' <= c <= 'z' then [(c as int - 32) as char]
    else Utf8(c)
  }

  function Normalize(code: string): string {
    if code == "" then "" else Normalize(code[..|code| - 1]) + NormalizeRune(code[|code| - 1])
  }

  method NormalizeShareCode(code: string) returns (out: string)
    ensures out == Normalize(code)
  {
    out := "";
    for i := 0 to |code|
      invariant out == Normalize(code[..i])
    {
      assert code[..i + 1][..i] == code[..i];
      out := out + NormalizeRune(code[i]);
    }
    assert code[..|code|] == code;
  }

  lemma AlphabetIsNormal(v: Symbol)
    ensures NormalizeRune(Letter(v)) == [Letter(v)]
  {}

  lemma OneMoreLetter(code: string, v: Symbol)
    requires Normalize(code) == code
    ensures Normalize(code + [Letter(v)]) == code + [Letter(v)]
  {
    AlphabetIsNormal(v);
    assert (code + [Letter(v)])[..|code|] == code;
  }

  lemma TextAppend(v: seq<Symbol>)
    requires v != []
    ensures Text(v) == Text(v[..|v| - 1]) + [Letter(v[|v| - 1])]
  {}

  lemma {:induction false} TextIsNormal(v: seq<Symbol>)
    ensures Normalize(Text(v)) == Text(v)
  {
    if v != [] {
      var n := |v| - 1;
      TextIsNormal(v[..n]);
      TextAppend(v);
      OneMoreLetter(Text(v[..n]), v[n]);
    }
  }

  // ---------------------------------------------------------------- codec

  function Mix(id: nat): nat {
    ((id * MIX_MULTIPLIER) % WORD) % MIX_SIZE
  }

  function Unmix(mixed: nat, inverse: nat): nat {
    ((mixed * inverse) % WORD) % MIX_SIZE
  }

  function Text(v: seq<Symbol>): (t: string)
    ensures |t| == |v|
  {
    seq(|v|, i requires 0 <= i < |v| => Letter(v[i]))
  }

  function WithChecksum(payload: seq<Symbol>): seq<Symbol> {
    payload + [Checksum(payload)]
  }

  function Encode(id: nat): Result<string, ShareError> {
    if id == 0 || id >= MIX_SIZE then Err(Unsupported) else Ok(Text(WithChecksum(Digits(Mix(id), PAYLOAD_LEN))))
  }

  function Values(t: string): Option<seq<Symbol>> {
    if t == "" then Some([])
    else match (Values(t[..|t| - 1]), CharValue(t[|t| - 1]))
      case (Some(v), Some(x)) => Some(v + [x])
      case _ => None
  }

  function DecodeNormalized(t: string, inverse: nat): Result<nat, ShareError> {
    if |t| != CODE_LEN then Err(InvalidCode)
    else match Values(t)
      case None => Err(InvalidCode)
      case Some(v) =>
        if |v| != CODE_LEN || v[PAYLOAD_LEN] != Checksum(v[..PAYLOAD_LEN]) then Err(InvalidCode)
        else
          var id := Unmix(Value(v[..PAYLOAD_LEN]), inverse);
          if id == 0 then Err(InvalidCode) else Ok(id)
  }

  function Decode(code: string): Result<nat, ShareError> {
    DecodeNormalized(Normalize(code), MixInverse())
  }

  method EncodeShareCode(videoId: nat) returns (r: Result<string, ShareError>)
    ensures r == Encode(videoId)
    ensures r.Ok? <==> 0 < videoId < MIX_SIZE
  {
    if videoId == 0 || videoId > MIX_SIZE - 1 {
      return Err(Unsupported);
    }
    var values := FillDigits(Mix(videoId));
    var check := ShareChecksum(values[..PAYLOAD_LEN]);
    values := values[PAYLOAD_LEN := check];
    assert values == WithChecksum(Digits(Mix(videoId), PAYLOAD_LEN));
    var text := Spell(values);
    r := Ok(text);
  }

  method Spell(values: seq<Symbol>) returns (text: string)
    ensures text == Text(values)
  {
    text := "";
    for k := 0 to |values|
      invariant text == Text(values)[..k]
    {
      LetterSpellsTheAlphabet(values[k]);
      text := text + [ALPHABET[values[k]]];
    }
  }

  // The digit-filling loop, last position first; the checksum slot stays 0.
  method FillDigits(mixed: nat) returns (values: seq<Symbol>)
    ensures |values| == CODE_LEN && values[..PAYLOAD_LEN] == Digits(mixed, PAYLOAD_LEN)
  {
    values := seq(CODE_LEN, _ => 0);
    var rest := mixed;
    var i := PAYLOAD_LEN;
    while i > 0
      invariant 0 <= i <= PAYLOAD_LEN && |values| == CODE_LEN
      invariant Digits(mixed, PAYLOAD_LEN) == Digits(rest, i) + values[i..PAYLOAD_LEN]
    {
      i := i - 1;
      ghost var tail := values[i + 1..PAYLOAD_LEN];
      values := values[i := rest % 32];
      assert values[i..PAYLOAD_LEN] == [rest % 32] + tail;
      rest := rest / 32;
    }
  }

  // The table lookup, symbol by symbol.
  method ReadSymbols(normalized: string) returns (r: Option<seq<Symbol>>)
    ensures r == Values(normalized)
  {
    var values: seq<Symbol> := [];
    for i := 0 to |normalized|
      invariant |values| == i
      invariant Values(normalized[..i]) == Some(values)
    {
      assert normalized[..i + 1][..i] == normalized[..i];
      match CharValue(normalized[i]) {
        case None =>
          ValuesNeedsEveryChar(normalized, i);
          return None;
        case Some(v) =>
          values := values + [v];
      }
    }
    assert normalized[..|normalized|] == normalized;
    r := Some(values);
  }

  method ReadNumber(values: seq<Symbol>) returns (mixed: nat)
    ensures mixed == Value(values)
  {
    mixed := 0;
    for i := 0 to |values|
      invariant mixed == Value(values[..i])
    {
      assert values[..i + 1][..i] == values[..i];
      mixed := mixed * 32 + values[i];
    }
    assert values[..|values|] == values;
  }

  method DecodeShareCode(code: string) returns (r: Result<nat, ShareError>)
    ensures r == Decode(code)
  {
    var normalized := NormalizeShareCode(code);
    if |normalized| != CODE_LEN {
      return Err(InvalidCode);
    }
    var symbols := ReadSymbols(normalized);
    if symbols == None {
      return Err(InvalidCode);
    }
    var values := symbols.value;
    TextOfValues(normalized);
    var check := ShareChecksum(values[..PAYLOAD_LEN]);
    if values[PAYLOAD_LEN] != check {
      return Err(InvalidCode);
    }
    var mixed := ReadNumber(values[..PAYLOAD_LEN]);
    var inverse := ComputeMixInverse();
    var videoId := ((mixed * inverse) % WORD) % MIX_SIZE;
    if videoId == 0 {
      return Err(InvalidCode);
    }
    r := Ok(videoId);
  }

  lemma {:induction false} ValuesNeedsEveryChar(t: string, i: nat)
    requires i < |t| && CharValue(t[i]) == None
    ensures Values(t) == None
  {
    var n := |t| - 1;
    if i < n {
      assert t[..n][i] == t[i];
      ValuesNeedsEveryChar(t[..n], i);
    }
  }

  // ---------------------------------------------------------------- round trips

  lemma {:induction false} ValuesOfText(v: seq<Symbol>)
    ensures Values(Text(v)) == Some(v)
  {
    if v != [] {
      var n := |v| - 1;
      ValuesOfText(v[..n]);
      assert Text(v)[..n] == Text(v[..n]);
      CharValueInverts(v[n]);
      assert v == v[..n] + [v[n]];
    }
  }

  lemma {:induction false} TextOfValues(t: string)
    requires Values(t).Some?
    ensures |Values(t).value| == |t| && Text(Values(t).value) == t
  {
    if t != "" {
      var n := |t| - 1;
      TextOfValues(t[..n]);
      assert t == t[..n] + [t[n]];
    }
  }

  ghost predicate Inverts(inverse: nat) {
    (MIX_MULTIPLIER * inverse) % MIX_SIZE == 1
  }

  lemma MixInverseInverts()
    ensures Inverts(MixInverse())
  {
    NewtonInverts(MIX_MULTIPLIER);
  }

  lemma WordThenMask(x: nat)
    ensures (x % WORD) % MIX_SIZE == x % MIX_SIZE
  {}

  lemma UnmixMix(id: nat, inverse: nat)
    requires id < MIX_SIZE && Inverts(inverse)
    ensures Mix(id) < MIX_SIZE && Unmix(Mix(id), inverse) == id
  {
    WordThenMask(id * MIX_MULTIPLIER);
    WordThenMask(Mix(id) * inverse);
    MulInverseCancels(id, MIX_MULTIPLIER, inverse, MIX_SIZE);
  }

  lemma MixUnmix(mixed: nat, inverse: nat)
    requires mixed < MIX_SIZE && Inverts(inverse)
    ensures Unmix(mixed, inverse) < MIX_SIZE && Mix(Unmix(mixed, inverse)) == mixed
  {
    WordThenMask(mixed * inverse);
    WordThenMask(Unmix(mixed, inverse) * MIX_MULTIPLIER);
    MulInverseCancels(mixed, inverse, MIX_MULTIPLIER, MIX_SIZE);
  }

  lemma DecodeEncodeNormalized(id: nat, inverse: nat)
    requires 0 < id < MIX_SIZE && Inverts(inverse)
    ensures Encode(id).Ok? && DecodeNormalized(Encode(id).value, inverse) == Ok(id)
  {
    var payload := Digits(Mix(id), PAYLOAD_LEN);
    var v := WithChecksum(payload);
    ValuesOfText(v);
    assert v[..PAYLOAD_LEN] == payload;
    UnmixMix(id, inverse);
    assert Pow32(7) == MIX_SIZE;
    ValueOfDigits(Mix(id), PAYLOAD_LEN);
  }

  lemma DecodeEncode(id: nat)
    requires 0 < id < MIX_SIZE
    ensures Encode(id).Ok? && Decode(Encode(id).value) == Ok(id)
  {
    MixInverseInverts();
    DecodeEncodeNormalized(id, MixInverse());
    TextIsNormal(WithChecksum(Digits(Mix(id), PAYLOAD_LEN)));
  }

  // What an accepted code looks like.
  lemma AcceptedCode(t: string, inverse: nat) returns (payload: seq<Symbol>)
    requires DecodeNormalized(t, inverse).Ok?
    ensures |payload| == PAYLOAD_LEN && t == Text(payload + [Checksum(payload)])
    ensures Value(payload) < MIX_SIZE && DecodeNormalized(t, inverse).value == Unmix(Value(payload), inverse) != 0
  {
    TextOfValues(t);
    var v := Values(t).value;
    payload := v[..PAYLOAD_LEN];
    assert v == payload + [Checksum(payload)];
    DigitsOfValue(payload);
    assert Pow32(7) == MIX_SIZE;
  }

  lemma EncodeDecodeNormalized(t: string, inverse: nat)
    requires Inverts(inverse) && DecodeNormalized(t, inverse).Ok?
    ensures Encode(DecodeNormalized(t, inverse).value) == Ok(t)
  {
    var payload := AcceptedCode(t, inverse);
    MixUnmix(Value(payload), inverse);
    DigitsOfValue(payload);
  }

  // Every accepted code, however it was typed, is the code of the id it decodes to.
  lemma EncodeDecode(code: string)
    requires Decode(code).Ok?
    ensures Encode(Decode(code).value) == Ok(Normalize(code))
  {
    MixInverseInverts();
    EncodeDecodeNormalized(Normalize(code), MixInverse());
  }

  // ---------------------------------------------------------------- error detection

  ghost predicate NonZero(v: seq<Symbol>) {
    exists i :: 0 <= i < |v| && v[i] != 0
  }

  lemma UnmixIsZero(mixed: nat, inverse: nat)
    requires mixed < MIX_SIZE && Inverts(inverse)
    ensures Unmix(mixed, inverse) == 0 <==> mixed == 0
  {
    MixUnmix(mixed, inverse);
    UnmixMix(0, inverse);
  }

  lemma PayloadIsZero(payload: seq<Symbol>, inverse: nat)
    requires |payload| == PAYLOAD_LEN && Inverts(inverse)
    ensures Unmix(Value(payload), inverse) != 0 <==> NonZero(payload)
  {
    DigitsOfValue(payload);
    assert Pow32(7) == MIX_SIZE;
    ValueIsZero(payload);
    UnmixIsZero(Value(payload), inverse);
  }

  // A normalized text made of one symbol sequence is accepted exactly when its checksum fits and it is not id 0.
  lemma AcceptedText(payload: seq<Symbol>, check: Symbol, inverse: nat)
    requires |payload| == PAYLOAD_LEN && Inverts(inverse)
    ensures DecodeNormalized(Text(payload + [check]), inverse).Ok? <==> check == Checksum(payload) && NonZero(payload)
  {
    var v := payload + [check];
    ValuesOfText(v);
    assert v[..PAYLOAD_LEN] == payload;
    PayloadIsZero(payload, inverse);
  }

  lemma DamagedTextIsRejected(t: string, k: nat, c: char, inverse: nat)
    requires Inverts(inverse) && DecodeNormalized(t, inverse).Ok?
    requires k < |t| && c != t[k]
    ensures DecodeNormalized(t[k := c], inverse) == Err(InvalidCode)
  {
    var payload := AcceptedCode(t, inverse);
    var check := Checksum(payload);
    if CharValue(c) == None {
      assert t[k := c][k] == c;
      ValuesNeedsEveryChar(t[k := c], k);
    } else {
      var x := CharValue(c).value;
      if k == PAYLOAD_LEN {
        assert Text(payload + [x]) == t[k := c];
        AcceptedText(payload, x, inverse);
      } else {
        assert Text(payload[k := x] + [check]) == t[k := c];
        AcceptedText(payload[k := x], check, inverse);
        OddWeightSeparates(payload, k, x);
      }
    }
  }

  // Changing one symbol of an accepted code to anything else is always noticed.
  lemma SingleSymbolErrorIsRejected(code: string, damaged: string, k: nat, c: char)
    requires Decode(code).Ok? && k < |Normalize(code)| && c != Normalize(code)[k]
    requires Normalize(damaged) == Normalize(code)[k := c]
    ensures Decode(damaged) == Err(InvalidCode)
  {
    MixInverseInverts();
    DamagedTextIsRejected(Normalize(code), k, c, MixInverse());
  }

  lemma OddWeightSeparates(p: seq<Symbol>, k: nat, x: Symbol)
    requires |p| == PAYLOAD_LEN && k < PAYLOAD_LEN && x != p[k]
    ensures Checksum(p[k := x]) != Checksum(p)
  {
    UpdateMovesSum(p, k, x);
    TimesIsProduct(2 * k + 1, x as int - p[k] as int);
    WeightedDifference(WeightedSum(p), 2 * k + 1, x as int - p[k] as int);
  }

  // An odd weight is invertible modulo 32, so only a difference of 0 can vanish.
  lemma WeightedDifference(sum: int, w: nat, d: int)
    requires w in {1, 3, 5, 7, 9, 11, 13} && -32 < d < 32
    ensures (sum + w * d) % 32 == sum % 32 ==> d == 0
  {
    if (sum + w * d) % 32 == sum % 32 {
      var q := (sum + w * d) / 32 - sum / 32;
      assert w * d == 32 * q;
      assert w == 1 ==> d == 32 * q;
      assert w == 3 ==> d == 32 * (11 * q - d);
      assert w == 5 ==> d == 32 * (13 * q - 2 * d);
      assert w == 7 ==> d == 32 * (23 * q - 5 * d);
      assert w == 9 ==> d == 32 * (25 * q - 7 * d);
      assert w == 11 ==> d == 32 * (3 * q - d);
      assert w == 13 ==> d == 32 * (5 * q - 2 * d);
    }
  }

  function Swapped(v: seq<Symbol>, i: nat): seq<Symbol>
    requires i + 1 < |v|
  {
    v[i := v[i + 1]][i + 1 := v[i]]
  }

  // The weights of neighbours differ by 2.
  lemma NeighbourWeights(i: nat, a: int, b: int)
    ensures Times(2 * i + 1, b - a) + Times(2 * (i + 1) + 1, a - b) == 2 * (a - b)
  {
    var n, d := 2 * i + 1, a - b;
    TimesMinus(n, 0, d);
    TimesZero(n);
    assert Times(n + 2, d) == Times(n + 1, d) + d;
    assert n + 2 == 2 * (i + 1) + 1 && 0 - d == b - a;
  }

  lemma FirstUpdate(v: seq<Symbol>, i: nat, a: Symbol, b: Symbol) returns (p: int)
    requires i + 1 < |v| && v[i] == a
    ensures p == Times(2 * i + 1, b as int - a as int) && WeightedSum(v[i := b]) == WeightedSum(v) + p
  {
    UpdateMovesSum(v, i, b);
    p := Times(2 * i + 1, b as int - a as int);
  }

  lemma SwapShiftsSum(v: seq<Symbol>, i: nat, a: Symbol, b: Symbol)
    requires i + 1 < |v| && v[i] == a && v[i + 1] == b
    ensures WeightedSum(v[i := b][i + 1 := a]) == WeightedSum(v) + 2 * (a as int - b as int)
  {
    var p := FirstUpdate(v, i, a, b);
    NeighbourWeights(i, a, b);
    UpdateMovesSum(v[i := b], i + 1, a);
  }

  lemma SwapMovesChecksum(v: seq<Symbol>, i: nat)
    requires i + 1 < |v|
    ensures Checksum(Swapped(v, i)) == Checksum(v) <==> (v[i] as int - v[i + 1] as int) % 16 == 0
  {
    SwapShiftsSum(v, i, v[i], v[i + 1]);
  }

  lemma SwapKeepsNonzero(v: seq<Symbol>, i: nat)
    requires i + 1 < |v| && NonZero(v)
    ensures NonZero(Swapped(v, i))
  {
    var j :| 0 <= j < |v| && v[j] != 0;
    var m := if j == i then i + 1 else if j == i + 1 then i else j;
    assert Swapped(v, i)[m] == v[j];
  }

  function SwapChars(t: string, i: nat): string
    requires i + 1 < |t|
  {
    t[i := t[i + 1]][i + 1 := t[i]]
  }

  // The distance between the symbol values of two neighbouring characters.
  function Distance(t: string, i: nat): int
    requires i + 1 < |t| && CharValue(t[i]).Some? && CharValue(t[i + 1]).Some?
  {
    CharValue(t[i]).value as int - CharValue(t[i + 1]).value as int
  }

  lemma TextOfSwapped(payload: seq<Symbol>, check: Symbol, i: nat)
    requires i + 1 < |payload|
    ensures var t := Text(payload + [check]);
            && Text(Swapped(payload, i) + [check]) == SwapChars(t, i)
            && CharValue(t[i]) == Some(payload[i]) && CharValue(t[i + 1]) == Some(payload[i + 1])
  {
    CharValueInverts(payload[i]);
    CharValueInverts(payload[i + 1]);
  }

  lemma SwappedText(t: string, i: nat, inverse: nat)
    requires Inverts(inverse) && DecodeNormalized(t, inverse).Ok? && i + 1 < PAYLOAD_LEN
    ensures |t| == CODE_LEN && CharValue(t[i]).Some? && CharValue(t[i + 1]).Some?
    ensures DecodeNormalized(SwapChars(t, i), inverse).Ok? <==> Distance(t, i) % 16 == 0
  {
    var payload := AcceptedCode(t, inverse);
    var check := Checksum(payload);
    AcceptedText(payload, check, inverse);
    TextOfSwapped(payload, check, i);
    AcceptedText(Swapped(payload, i), check, inverse);
    SwapMovesChecksum(payload, i);
    SwapKeepsNonzero(payload, i);
  }

  // Swapping two neighbouring payload symbols is missed exactly when they differ by a multiple of 16.
  lemma AdjacentSwap(code: string, swapped: string, i: nat)
    requires Decode(code).Ok? && i + 1 < PAYLOAD_LEN < |Normalize(code)|
    requires Normalize(swapped) == SwapChars(Normalize(code), i)
    ensures CharValue(Normalize(code)[i]).Some? && CharValue(Normalize(code)[i + 1]).Some?
    ensures Decode(swapped).Ok? <==> Distance(Normalize(code), i) % 16 == 0
  {
    MixInverseInverts();
    SwappedText(Normalize(code), i, MixInverse());
  }

  // Two texts that decode to one id are the same code: an unnoticed change names another video.
  lemma SameIdSameCode(code: string, other: string)
    requires Decode(code).Ok? && Decode(other) == Decode(code)
    ensures Normalize(other) == Normalize(code)
  {
    EncodeDecode(code);
    EncodeDecode(other);
  }
}
