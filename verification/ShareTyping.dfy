/**
 What a typed share code means (video/sharecode.go normalizeShareCode): which texts stand for a code, said character by
 character, and that exactly these decode to the code's video.
*/
module ShareTyping {
  import opened Sums
  import opened Wrappers
  import opened ShareCode

  // A typed character stands for a letter of a code: itself, in lower case, or easily mistaken for it.
  predicate StandsFor(c: char, letter: char) {
    || c == letter
    || ('A' <= letter <= 'Z' && c as int == letter as int + 32)
    || (letter == '1' && (c == 'i' || c == 'I' || c == 'l' || c == 'L'))
    || (letter == '0' && (c == 'o' || c == 'O'))
  }

  predicate IsSeparator(c: char) {
    c == '-' || c == ' '
  }

  // The text is the code with separators anywhere and every letter written in one of its ways.
  predicate Spells(typed: string, code: string) {
    if typed == "" then code == ""
    else
      var n := |typed| - 1;
      || (IsSeparator(typed[n]) && Spells(typed[..n], code))
      || (code != "" && StandsFor(typed[n], code[|code| - 1]) && Spells(typed[..n], code[..|code| - 1]))
  }

  lemma SeparatorsVanish(c: char)
    ensures NormalizeRune(c) == "" <==> IsSeparator(c)
  {}

  lemma RuneOfLetter(c: char, v: Symbol)
    ensures NormalizeRune(c) == [Letter(v)] <==> StandsFor(c, Letter(v))
  {}

  // Outside ASCII a character is written as bytes no code contains.
  lemma LongRune(c: char)
    ensures var r := NormalizeRune(c); |r| >= 2 ==> r[|r| - 1] as int >= 0x80
  {}

  lemma LetterIsAscii(v: Symbol)
    ensures Letter(v) as int < 0x80
  {}

  lemma LastRuneDecides(front: string, rune: string, rest: string, letter: char)
    requires rune != "" && (|rune| >= 2 ==> rune[|rune| - 1] as int >= 0x80) && letter as int < 0x80
    ensures front + rune == rest + [letter] <==> front == rest && rune == [letter]
  {
    var all := front + rune;
    assert all[|all| - 1] == rune[|rune| - 1];
    if all == rest + [letter] {
      assert |rune| == 1 && rune == [letter];
      assert all[..|all| - 1] == front && (rest + [letter])[..|rest|] == rest;
    }
  }

  // A text spells a code exactly if normalization makes the code of it.
  lemma {:induction false} SpelledIsNormal(typed: string, v: seq<Symbol>)
    ensures Spells(typed, Text(v)) <==> Normalize(typed) == Text(v)
  {
    if typed != "" {
      var n := |typed| - 1;
      var c, front := typed[n], typed[..n];
      SeparatorsVanish(c);
      LongRune(c);
      SpelledIsNormal(front, v);
      if v == [] {
        assert Text(v) == "";
      } else {
        var m := |v| - 1;
        TextAppend(v);
        assert Text(v)[..m] == Text(v[..m]);
        RuneOfLetter(c, v[m]);
        LetterIsAscii(v[m]);
        if !IsSeparator(c) {
          SpelledIsNormal(front, v[..m]);
          LastRuneDecides(Normalize(front), NormalizeRune(c), Text(v[..m]), Letter(v[m]));
        }
      }
    }
  }

  // Decoding reads a text as video `id` exactly if it spells that video's code.
  lemma DecodesIffSpelled(typed: string, id: nat)
    requires 0 < id < MIX_SIZE
    ensures Encode(id).Ok? && (Decode(typed) == Ok(id) <==> Spells(typed, Encode(id).value))
  {
    var v := WithChecksum(Digits(Mix(id), PAYLOAD_LEN));
    DecodeEncode(id);
    TextIsNormal(v);
    SpelledIsNormal(typed, v);
    if Decode(typed) == Ok(id) {
      EncodeDecode(typed);
    }
  }

  // Any text that spells no code at all is refused.
  lemma OthersAreRefused(typed: string)
    requires forall id: nat :: 0 < id < MIX_SIZE ==> !Spells(typed, Encode(id).value)
    ensures Decode(typed) == Err(InvalidCode)
  {
    if Decode(typed).Ok? {
      var id := Decode(typed).value;
      EncodeDecode(typed);
      DecodesIffSpelled(typed, id);
    }
  }

  // ---------------------------------------------------------------- one code in full

  lemma CodeOfNine()
    ensures Encode(9) == Ok("P7Z6HSS1")
  {
    assert Mix(9) == 23889921849;
    DigitsOfNine();
    var payload: seq<Symbol> := [22, 7, 31, 6, 17, 25, 25];
    ChecksumOfNine(payload);
    assert Text(payload + [1]) == "P7Z6HSS1";
  }

  lemma DigitsOfNine()
    ensures Digits(23889921849, 7) == [22, 7, 31, 6, 17, 25, 25]
  {
    assert Digits(22, 1) == [22];
    assert Digits(711, 2) == [22, 7];
    assert Digits(22783, 3) == [22, 7, 31];
    assert Digits(729062, 4) == [22, 7, 31, 6];
    assert Digits(23330001, 5) == [22, 7, 31, 6, 17];
    assert Digits(746560057, 6) == [22, 7, 31, 6, 17, 25];
  }

  lemma OneWeightMore(v: seq<Symbol>, n: nat)
    requires n < |v|
    ensures WeightedSum(v[..n + 1]) == WeightedSum(v[..n]) + (2 * n + 1) * v[n]
  {
    assert v[..n + 1][..n] == v[..n];
    TimesIsProduct(2 * n + 1, v[n]);
  }

  lemma ChecksumOfNine(v: seq<Symbol>)
    requires v == [22, 7, 31, 6, 17, 25, 25]
    ensures Checksum(v) == 1
  {
    OneWeightMore(v, 0);
    OneWeightMore(v, 1);
    OneWeightMore(v, 2);
    OneWeightMore(v, 3);
    OneWeightMore(v, 4);
    OneWeightMore(v, 5);
    OneWeightMore(v, 6);
    assert v[..7] == v && WeightedSum(v) == 22 + 3 * 7 + 5 * 31 + 7 * 6 + 9 * 17 + 11 * 25 + 13 * 25;
  }

  lemma {:induction false} SpellsItself(code: string)
    ensures Spells(code, code)
  {
    if code != "" {
      SpellsItself(code[..|code| - 1]);
    }
  }

  // The last 1 mistaken for an l.
  lemma MistypedNine()
    ensures Decode("P7Z6HSSl") == Ok(9)
  {
    CodeOfNine();
    var typed, code := "P7Z6HSSl", "P7Z6HSS1";
    DecodesIffSpelled(typed, 9);
    assert typed[..7] == code[..7];
    SpellsItself(code[..7]);
  }
}
