/**
 Interest tags (tag/tag.go): labels are trimmed and cut to 32 runes, lists keep at most seven labels, and
 merging moves a repeated label to the end. A Go string is a `string` of its runes.
*/
module Tags {
  import opened GoText
  import opened Recency

  const MAX := 7
  const MAX_RUNES := 32

  // ---------------------------------------------------------------- labels

  function Compact(raw: string): string {
    FirstN(Trim(raw), MAX_RUNES)
  }

  // The labels a list of raw tags stands for: compacted, empty ones dropped.
  function Labels(tags: seq<string>): seq<string> {
    Collect(tags, Compact, "")
  }

  // ---------------------------------------------------------------- the two list operations

  function Normalized(tags: seq<string>): seq<string> {
    FirstN(FirstOnly(Labels(tags)), MAX)
  }

  function Merged(existing: seq<string>, incoming: seq<string>): seq<string> {
    LastN(LastOnly(Normalized(existing) + Labels(incoming)), MAX)
  }

  method Normalize(tags: seq<string>) returns (out: seq<string>)
    ensures out == Normalized(tags)
  {
    out := [];
    var seen: set<string> := {};
    var i := 0;
    while i < |tags| && |out| < MAX
      invariant 0 <= i <= |tags|
      invariant out == FirstOnly(Labels(tags[..i])) && |out| <= MAX
      invariant forall x :: x in seen <==> x in out
    {
      CollectFirstOnly(tags, Compact, "", i);
      var item := Compact(tags[i]);
      if item != "" && item !in seen {
        seen := seen + {item};
        out := out + [item];
      }
      i := i + 1;
    }
    CollectFirstOnlyPrefix(tags, Compact, "", i, MAX);
  }

  method Remove(s: seq<string>, item: string) returns (kept: seq<string>)
    ensures kept == Without(s, item)
  {
    kept := [];
    for i := 0 to |s|
      invariant kept == Without(s[..i], item)
    {
      WithoutAppend(s[..i], [s[i]], item);
      assert s[..i + 1] == s[..i] + [s[i]];
      if s[i] != item {
        kept := kept + [s[i]];
      }
    }
    assert s[..|s|] == s;
  }

  method Merge(existing: seq<string>, incoming: seq<string>) returns (out: seq<string>)
    ensures out == Merged(existing, incoming)
  {
    var base := Normalize(existing);
    out := base;
    NormalizedFacts(existing);
    LastOnlyFixed(base);
    assert base + Labels(incoming[..0]) == base;
    for i := 0 to |incoming|
      invariant out == LastOnly(base + Labels(incoming[..i]))
    {
      CollectLastOnly(base, incoming, Compact, "", i);
      var item := Compact(incoming[i]);
      if item != "" {
        var kept := Remove(out, item);
        out := kept + [item];
      }
    }
    assert incoming[..|incoming|] == incoming;
    if |out| > MAX {
      out := out[|out| - MAX..];
    }
  }

  lemma NormalizedFacts(tags: seq<string>)
    ensures var r := Normalized(tags); |r| <= MAX && Distinct(r) && "" !in r
  {
    FirstOnlyFacts(Labels(tags));
  }

  // Normalizing keeps the labels of the list in the order in which they are first met, all of them or the first seven.
  lemma NormalizedOrder(tags: seq<string>)
    ensures var l, r := Labels(tags), Normalized(tags);
            && FirstMet(l, r) && (forall x :: x in r ==> x in l) && ((forall x :: x in l ==> x in r) || |r| == 7)
  {
    FirstsAreFirstMet(Labels(tags), MAX);
  }

  // Merging keeps the labels of both lists in the order in which they are last met, all of them or the last seven.
  lemma MergedOrder(existing: seq<string>, incoming: seq<string>)
    ensures var l, r := Normalized(existing) + Labels(incoming), Merged(existing, incoming);
            && LastMet(l, r) && (forall x :: x in r ==> x in l) && ((forall x :: x in l ==> x in r) || |r| == 7)
  {
    LastsAreLastMet(Normalized(existing) + Labels(incoming), MAX);
    LastsAreMembers(Normalized(existing) + Labels(incoming), MAX);
  }

  // A label is the text without surrounding spaces, at most its first 32 runes.
  lemma CompactedText(raw: string) returns (i: nat, j: nat)
    ensures i <= j <= |raw| && (forall k :: 0 <= k < i || j <= k < |raw| ==> IsSpace(raw[k]))
    ensures i < j ==> !IsSpace(raw[i]) && !IsSpace(raw[j - 1])
    ensures Compact(raw) == if j - i > 32 then raw[i..i + 32] else raw[i..j]
  {
    i, j := TrimCutsSpaces(raw);
    TrimFacts(raw);
    assert i < j ==> Trim(raw)[0] == raw[i] && Trim(raw)[|Trim(raw)| - 1] == raw[j - 1];
    assert j - i > 32 ==> raw[i..j][..32] == raw[i..i + 32];
  }

  // What the callers rely on: at most seven labels, no repetition, none empty.
  lemma MergedFacts(existing: seq<string>, incoming: seq<string>)
    ensures var m := Merged(existing, incoming); |m| <= MAX && Distinct(m) && "" !in m
  {
    NormalizedFacts(existing);
    var s := Normalized(existing) + Labels(incoming);
    assert "" !in s;
    LastOnlyFacts(s);
  }

  // ---------------------------------------------------------------- the merge law

  predicate Stable(tags: seq<string>) {
    forall i :: 0 <= i < |tags| ==> Compact(tags[i]) == tags[i]
  }

  // On a list that Merge returned, normalizing again is harmless exactly when every label is stable.
  lemma NormalizedIsIdentity(m: seq<string>)
    requires |m| <= MAX && Distinct(m) && "" !in m
    ensures Normalized(m) == m <==> Stable(m)
  {
    CollectFixed(m, Compact, "");
    FirstOnlyFacts(Labels(m));
    FirstOnlyFixed(Labels(m));
    FirstOnlyFixed(m);
  }

  lemma MergeInTwoSteps(e: seq<string>, a: seq<string>, b: seq<string>)
    requires Stable(Merged(e, a))
    ensures Merged(Merged(e, a), b) == Merged(e, a + b)
  {
    MergedFacts(e, a);
    NormalizedIsIdentity(Merged(e, a));
    TwoStepMerge(Normalized(e), Labels(a), Labels(b), MAX);
    CollectAppend(a, b, Compact, "");
  }

  // Merging nothing shows whether the first merge left an unstable label.
  lemma MergeNothing(e: seq<string>, a: seq<string>)
    ensures Merged(Merged(e, a), []) == Merged(e, a) <==> Stable(Merged(e, a))
  {
    var m := Merged(e, a);
    MergedFacts(e, a);
    NormalizedFacts(m);
    LastOnlyFixed(Normalized(m));
    assert Normalized(m) + Labels([]) == Normalized(m);
    NormalizedIsIdentity(m);
  }

  // Merging in two steps agrees with merging at once, for every continuation, exactly when the first
  // step left only labels that compacting does not change.
  lemma MergeRegroupsIffStable(e: seq<string>, a: seq<string>)
    ensures (forall b :: Merged(Merged(e, a), b) == Merged(e, a + b)) <==> Stable(Merged(e, a))
  {
    if Stable(Merged(e, a)) {
      forall b ensures Merged(Merged(e, a), b) == Merged(e, a + b) {
        MergeInTwoSteps(e, a, b);
      }
    } else {
      MergeNothing(e, a);
      assert a + [] == a;
      assert Merged(Merged(e, a), []) != Merged(e, a + []);
    }
  }

  // ---------------------------------------------------------------- which labels are stable

  // Cutting at 32 runes is what makes a label unstable: the cut may expose a space.
  predicate CutAtSpace(raw: string) {
    |Trim(raw)| > MAX_RUNES && IsSpace(Trim(raw)[MAX_RUNES - 1])
  }

  lemma CompactIsStableUnlessCutAtSpace(raw: string)
    ensures Compact(Compact(raw)) == Compact(raw) <==> !CutAtSpace(raw)
  {
    var item := Compact(raw);
    TrimFacts(raw);
    TrimFacts(item);
    TrimRightFacts(TrimLeft(item));
    if |Trim(raw)| > MAX_RUNES && IsSpace(Trim(raw)[MAX_RUNES - 1]) {
      assert TrimLeft(item) == item;
      assert |TrimRight(item)| < |item|;
    }
  }

  lemma {:induction false} LabelsComeFrom(tags: seq<string>, x: string) returns (i: nat)
    requires x in Labels(tags)
    ensures i < |tags| && x == Compact(tags[i])
  {
    var n := |tags| - 1;
    if Compact(tags[n]) == x {
      i := n;
    } else {
      i := LabelsComeFrom(tags[..n], x);
    }
  }

  lemma MergedComeFrom(e: seq<string>, a: seq<string>, x: string)
    requires x in Merged(e, a)
    ensures x in Labels(e) || x in Labels(a)
  {
    LastOnlyFacts(Normalized(e) + Labels(a));
    FirstOnlyFacts(Labels(e));
    assert x in LastOnly(Normalized(e) + Labels(a));
    assert x in Normalized(e) ==> x in FirstOnly(Labels(e));
  }

  ghost predicate NoneCutAtSpace(tags: seq<string>) {
    forall i :: 0 <= i < |tags| ==> !CutAtSpace(tags[i])
  }

  lemma UncutLabelsAreStable(tags: seq<string>, x: string)
    requires NoneCutAtSpace(tags) && x in Labels(tags)
    ensures Compact(x) == x
  {
    var i := LabelsComeFrom(tags, x);
    CompactIsStableUnlessCutAtSpace(tags[i]);
  }

  lemma UncutMergeIsStable(e: seq<string>, a: seq<string>)
    requires NoneCutAtSpace(e) && NoneCutAtSpace(a)
    ensures Stable(Merged(e, a))
  {
    var m := Merged(e, a);
    forall i | 0 <= i < |m| ensures Compact(m[i]) == m[i] {
      MergedComeFrom(e, a, m[i]);
      if m[i] in Labels(e) {
        UncutLabelsAreStable(e, m[i]);
      } else {
        UncutLabelsAreStable(a, m[i]);
      }
    }
  }

  // On lists no label of which is cut at a space, merging in two steps equals merging at once.
  lemma UncutListsRegroup(e: seq<string>, a: seq<string>, b: seq<string>)
    requires NoneCutAtSpace(e) && NoneCutAtSpace(a)
    ensures Merged(Merged(e, a), b) == Merged(e, a + b)
  {
    UncutMergeIsStable(e, a);
    MergeInTwoSteps(e, a, b);
  }

  lemma SingleLabel(raw: string)
    requires Compact(raw) != ""
    ensures Merged([], [raw]) == [Compact(raw)]
  {
    var tags := [raw];
    CollectStep(tags, Compact, "", 0);
    assert tags[..1] == tags;
    assert Labels(tags) == [Compact(raw)];
    assert Normalized([]) == [];
    assert [] + Labels(tags) == [Compact(raw)];
    LastOnlyFixed([Compact(raw)]);
  }

  // A label on which merging in two steps differs from merging at once: 31 letters, a space, a letter.
  lemma MergeInTwoStepsCanDiffer()
    ensures exists a, b :: Merged(Merged([], a), b) != Merged([], a + b)
  {
    var raw := "aaaaaaaaaaaaaaaaaaaaaaaaaaaaaaa b";
    UnstableLabelBreaksMerge(raw);
  }

  lemma UnstableLabelBreaksMerge(raw: string)
    requires Trimmed(raw) && |raw| > MAX_RUNES && IsSpace(raw[MAX_RUNES - 1])
    ensures exists a, b :: Merged(Merged([], a), b) != Merged([], a + b)
  {
    CompactIsStableUnlessCutAtSpace(raw);
    TrimFacts(raw);
    SingleLabel(raw);
    var a := [raw];
    assert Merged([], a)[0] == Compact(raw);
    assert !Stable(Merged([], a));
    MergeRegroupsIffStable([], a);
  }
}
