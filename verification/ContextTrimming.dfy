/** When the compactor's trimming loop ends, and what it leaves. */
module ContextTrimming {
  import opened Wrappers
  import opened ContextCompactor

  // ----- high and low parts under one round

  lemma {:induction false} HighConcat(a: seq<Kept>, b: seq<Kept>)
    ensures HighPart(a + b) == HighPart(a) + HighPart(b)
  {
    if a == [] {
      assert a + b == b;
    } else {
      HighConcat(a[1..], b);
      assert (a + b)[1..] == a[1..] + b;
    }
  }

  lemma {:induction false} HighMembers(ks: seq<Kept>)
    ensures forall k :: k in HighPart(ks) <==> k in ks && High(k)
  {
    if ks != [] {
      HighMembers(ks[1..]);
    }
  }

  lemma {:induction false} AllHigh(ks: seq<Kept>)
    requires FirstLow(ks).None?
    ensures HighPart(ks) == ks
  {
    if ks != [] {
      AllHigh(ks[1..]);
    }
  }

  lemma RemoveLowKeepsHigh(ks: seq<Kept>, i: nat)
    requires i < |ks| && !High(ks[i])
    ensures HighPart(RemoveAt(ks, i)) == HighPart(ks)
  {
    LowAlone(ks[i]);
    SplitAt(ks, i);
    hide High, HighPart;
    HighConcat(ks[..i], [ks[i]] + ks[i + 1..]);
    HighConcat([ks[i]], ks[i + 1..]);
    HighConcat(ks[..i], ks[i + 1..]);
    assert [] + HighPart(ks[i + 1..]) == HighPart(ks[i + 1..]);
  }

  lemma LowAlone(k: Kept)
    requires !High(k)
    ensures HighPart([k]) == []
  {
    hide High;
  }

  lemma SplitAt(ks: seq<Kept>, i: nat)
    requires i < |ks|
    ensures ks == ks[..i] + ([ks[i]] + ks[i + 1..])
  {
  }

  // ----- sizes

  lemma {:induction false} SizeConcat(frame: Frame, a: seq<Kept>, b: seq<Kept>)
    ensures EntriesSize(frame, a + b) == EntriesSize(frame, a) + EntriesSize(frame, b)
  {
    if a == [] {
      assert a + b == b;
    } else {
      SizeConcat(frame, a[1..], b);
      assert (a + b)[1..] == a[1..] + b;
    }
  }

  lemma SizeUpdate(frame: Frame, ks: seq<Kept>, i: nat, k: Kept)
    requires i < |ks|
    ensures EntriesSize(frame, ks[i := k]) == EntriesSize(frame, ks) - EntrySize(frame, ks[i]) + EntrySize(frame, k)
  {
    assert ks == ks[..i] + ([ks[i]] + ks[i + 1..]);
    assert ks[i := k] == ks[..i] + ([k] + ks[i + 1..]);
    SizeConcat(frame, ks[..i], [ks[i]] + ks[i + 1..]);
    SizeConcat(frame, ks[..i], [k] + ks[i + 1..]);
    SizeConcat(frame, [ks[i]], ks[i + 1..]);
    SizeConcat(frame, [k], ks[i + 1..]);
  }

  lemma {:induction false} JsonConcat(a: string, b: string)
    ensures JsonChars(a + b) == JsonChars(a) + JsonChars(b)
  {
    if a == "" {
      assert a + b == b;
    } else {
      JsonConcat(a[1..], b);
      assert (a + b)[1..] == a[1..] + b;
    }
  }

  lemma {:induction false} JsonAtLeast(s: string)
    ensures JsonChars(s) >= |s|
  {
    if s != "" {
      JsonAtLeast(s[1..]);
    }
  }

  /** Replacing a nonempty tail by one ellipsis never lengthens the serialised text. */
  lemma CutShrinks(s: string, k: nat)
    requires k < |s|
    ensures JsonChars(s[..k] + [ELLIPSIS]) <= JsonChars(s)
  {
    assert s == s[..k] + s[k..];
    JsonConcat(s[..k], s[k..]);
    JsonConcat(s[..k], [ELLIPSIS]);
    JsonAtLeast(s[k..]);
    assert JsonChars([ELLIPSIS]) == 1 by {
      assert [ELLIPSIS][1..] == "";
    }
  }

  lemma {:induction false} HighSize(frame: Frame, ks: seq<Kept>)
    ensures EntriesSize(frame, HighPart(ks)) <= EntriesSize(frame, ks)
    ensures |HighPart(ks)| <= |ks|
  {
    if ks != [] {
      HighSize(frame, ks[1..]);
      var h := HighPart(ks);
      if High(ks[0]) {
        assert h[1..] == HighPart(ks[1..]);
      }
    }
  }

  // ----- the state a long all-high selection is driven to

  /** A summary over 161 characters ends as its first 160 and an ellipsis. */
  function SettledText(s: string): string {
    if |s| <= KEEP + 1 then s else s[..KEEP] + [ELLIPSIS]
  }

  function SettledEntry(k: Kept): Kept {
    if Len(k) <= KEEP + 1 then k else WithSummary(k, SettledText(SummaryOf(k)))
  }

  function SettleAll(ks: seq<Kept>): (r: seq<Kept>)
    ensures |r| == |ks|
    ensures forall i :: 0 <= i < |ks| ==> r[i] == SettledEntry(ks[i])
  {
    seq(|ks|, i requires 0 <= i < |ks| => SettledEntry(ks[i]))
  }

  predicate HasLong(ks: seq<Kept>) {
    exists k :: k in ks && Len(k) > KEEP
  }

  lemma LongestIsLong(ks: seq<Kept>)
    requires ks != []
    ensures HasLong(ks) <==> Len(ks[Longest(ks)]) > KEEP
  {
    if HasLong(ks) {
      var k :| k in ks && Len(k) > KEEP;
      var i :| 0 <= i < |ks| && ks[i] == k;
      assert Len(ks[i]) <= Len(ks[Longest(ks)]);
    } else {
      assert ks[Longest(ks)] in ks;
    }
  }

  lemma SettleKeepsLong(ks: seq<Kept>)
    requires HasLong(ks)
    ensures ks != [] && HasLong(SettleAll(ks))
  {
    var k :| k in ks && Len(k) > KEEP;
    var i :| 0 <= i < |ks| && ks[i] == k;
    assert SettleAll(ks)[i] in SettleAll(ks);
  }

  /** The fixed point of the loop body on an all-high selection with a summary over 160 characters:
      everything settled, and the first longest summary cut. */
  function Limit(ks: seq<Kept>): seq<Kept>
    requires HasLong(ks)
  {
    SettleKeepsLong(ks);
    LongestIsLong(SettleAll(ks));
    CutLongest(SettleAll(ks))
  }

  lemma CutKeepsSettled(s: string)
    requires |s| > KEEP + 1
    ensures |CutText(s)| < |s| && |CutText(s)| > KEEP && SettledText(CutText(s)) == SettledText(s)
  {
    var k := if |s| / 2 > KEEP then |s| / 2 else KEEP;
    assert CutText(s)[..KEEP] == s[..KEEP];
    if k == KEEP {
      assert SettledText(CutText(s)) == CutText(s);
    }
  }

  /** The fixed point of a cut: the 161-character text of 160 characters and an ellipsis. */
  lemma CutOfShortest(s: string)
    requires |s| == KEEP + 1
    ensures CutText(s) == s[..KEEP] + [ELLIPSIS] && |CutText(s)| == KEEP + 1
    ensures CutText(CutText(s)) == CutText(s)
  {
    assert CutText(s)[..KEEP] == s[..KEEP];
  }

  predicate Stalling(ks: seq<Kept>) {
    ks != [] && FirstLow(ks).None? && HasLong(ks)
  }

  lemma CutLongestFacts(ks: seq<Kept>)
    requires ks != [] && HasLong(ks)
    ensures Len(ks[Longest(ks)]) > KEEP
    ensures |CutLongest(ks)| == |ks| && HasLong(CutLongest(ks))
    ensures FirstLow(CutLongest(ks)).None? <==> FirstLow(ks).None?
  {
    LongestIsLong(ks);
    var l := Longest(ks);
    var r := CutLongest(ks);
    assert r[l] in r && Len(r[l]) > KEEP;
    assert forall j :: 0 <= j < |ks| ==> (High(r[j]) <==> High(ks[j]));
    var a, b := FirstLow(r), FirstLow(ks);
    if a.Some? {
      assert !High(ks[a.value]);
    }
    if b.Some? {
      assert !High(r[b.value]);
    }
  }

  lemma CutFromAfar(ks: seq<Kept>)
    requires ks != [] && Len(ks[Longest(ks)]) > KEEP + 1
    ensures SettleAll(CutLongest(ks)) == SettleAll(ks)
  {
    CutKeepsSettled(SummaryOf(ks[Longest(ks)]));
  }

  lemma CutAtTheEnd(ks: seq<Kept>)
    requires ks != [] && Len(ks[Longest(ks)]) == KEEP + 1
    ensures SettleAll(ks) == ks && SettleAll(CutLongest(ks)) == CutLongest(ks)
    ensures Len(CutLongest(ks)[Longest(CutLongest(ks))]) > KEEP && CutLongest(CutLongest(ks)) == CutLongest(ks)
  {
    var l := Longest(ks);
    var r := CutLongest(ks);
    CutOfShortest(SummaryOf(ks[l]));
    assert SummaryOf(r[l]) == CutText(SummaryOf(ks[l]));
    hide CutText;
    assert forall j :: 0 <= j < |r| ==> Len(r[j]) == Len(ks[j]);
    SameLongest(r, ks);
    assert WithSummary(r[l], CutText(SummaryOf(r[l]))) == r[l];
    assert r[l := r[l]] == r;
  }

  /** One cut of a longest summary leads to the same limit; at 161 characters it is the limit. */
  lemma CutLeadsToLimit(ks: seq<Kept>)
    requires ks != [] && HasLong(ks) && Len(ks[Longest(ks)]) > KEEP
    ensures HasLong(CutLongest(ks)) && Limit(CutLongest(ks)) == Limit(ks)
    ensures Len(ks[Longest(ks)]) == KEEP + 1 ==> CutLongest(ks) == Limit(ks)
  {
    hide SettleAll, CutLongest, Longest, HasLong;
    CutLongestFacts(ks);
    if Len(ks[Longest(ks)]) > KEEP + 1 {
      CutFromAfar(ks);
    } else {
      CutAtTheEnd(ks);
    }
  }

  lemma SameLongest(a: seq<Kept>, b: seq<Kept>)
    requires a != [] && |a| == |b| && forall j :: 0 <= j < |a| ==> Len(a[j]) == Len(b[j])
    ensures Longest(a) == Longest(b)
  {
    var i, j := Longest(a), Longest(b);
    assert Len(a[i]) >= Len(a[j]) && Len(b[j]) >= Len(b[i]);
  }

  lemma CutLongestShrinks(frame: Frame, ks: seq<Kept>)
    requires ks != [] && Len(ks[Longest(ks)]) > KEEP
    ensures Size(frame, CutLongest(ks)) <= Size(frame, ks)
  {
    var l := Longest(ks);
    var s := SummaryOf(ks[l]);
    var k := WithSummary(ks[l], CutText(s));
    CutShrinks(s, if |s| / 2 > KEEP then |s| / 2 else KEEP);
    assert ks[l].entry.summary.Some?;
    assert Blanked(k) == Blanked(ks[l]);
    SizeUpdate(frame, ks, l, k);
  }

  ghost function TotalLen(ks: seq<Kept>): nat {
    if ks == [] then 0 else Len(ks[0]) + TotalLen(ks[1..])
  }

  lemma {:induction false} TotalUpdate(ks: seq<Kept>, i: nat, k: Kept)
    requires i < |ks|
    ensures TotalLen(ks[i := k]) == TotalLen(ks) - Len(ks[i]) + Len(k)
  {
    if i > 0 {
      TotalUpdate(ks[1..], i - 1, k);
      assert ks[i := k][1..] == ks[1..][i - 1 := k];
    } else {
      assert ks[0 := k][1..] == ks[1..];
    }
  }

  /** The limit is no larger than the selection it is the limit of. */
  lemma {:induction false} LimitIsSmaller(frame: Frame, ks: seq<Kept>)
    requires HasLong(ks)
    ensures ks != [] && Size(frame, Limit(ks)) <= Size(frame, ks)
    decreases TotalLen(ks)
  {
    LongestIsLong(ks);
    CutLongestShrinks(frame, ks);
    CutLeadsToLimit(ks);
    var l := Longest(ks);
    if Len(ks[l]) > KEEP + 1 {
      CutKeepsSettled(SummaryOf(ks[l]));
      TotalUpdate(ks, l, WithSummary(ks[l], CutText(SummaryOf(ks[l]))));
      LimitIsSmaller(frame, CutLongest(ks));
    }
  }

  // ----- the written loop, on an all-high selection with a long summary

  /** With the written guard the loop never fits the limit when its fixed point does not. */
  lemma {:induction false} StallsForever(frame: Frame, limit: nat, ks: seq<Kept>, n: nat)
    requires Stalling(ks) && Size(frame, Limit(ks)) > limit
    ensures Over(frame, limit, Rounds(frame, limit, KEEP, ks, n))
    decreases n
  {
    hide Limit, Size, Longest, CutLongest, HasLong, FirstLow;
    LimitIsSmaller(frame, ks);
    if n > 0 {
      LongestIsLong(ks);
      CutLongestFacts(ks);
      CutLeadsToLimit(ks);
      StallsForever(frame, limit, CutLongest(ks), n - 1);
    }
  }

  /** The rounds the written loop needs to fit when its fixed point does. */
  lemma {:induction false} StallingHalts(frame: Frame, limit: nat, ks: seq<Kept>)
    requires Stalling(ks) && Size(frame, Limit(ks)) <= limit
    ensures Halts(frame, limit, KEEP, ks)
    decreases TotalLen(ks)
  {
    if !Over(frame, limit, ks) {
      HaltsNow(frame, limit, KEEP, ks);
    } else {
      LongestIsLong(ks);
      CutLongestFacts(ks);
      CutLeadsToLimit(ks);
      var l := Longest(ks);
      if Len(ks[l]) > KEEP + 1 {
        CutKeepsSettled(SummaryOf(ks[l]));
        TotalUpdate(ks, l, WithSummary(ks[l], CutText(SummaryOf(ks[l]))));
        StallingHalts(frame, limit, CutLongest(ks));
      } else {
        HaltsNow(frame, limit, KEEP, CutLongest(ks));
      }
      HaltsLater(frame, limit, KEEP, ks);
    }
  }

  lemma HaltsNow(frame: Frame, limit: nat, guard: nat, ks: seq<Kept>)
    requires guard >= KEEP && !Over(frame, limit, ks)
    ensures Halts(frame, limit, guard, ks)
  {
    assert Rounds(frame, limit, guard, ks, 0) == ks;
  }

  lemma HaltsLater(frame: Frame, limit: nat, guard: nat, ks: seq<Kept>)
    requires guard >= KEEP && Over(frame, limit, ks)
    ensures Halts(frame, limit, guard, TrimStep(guard, ks)) <==> Halts(frame, limit, guard, ks)
  {
    var next := TrimStep(guard, ks);
    if Halts(frame, limit, guard, next) {
      var n: nat :| !Over(frame, limit, Rounds(frame, limit, guard, next, n));
      assert Rounds(frame, limit, guard, ks, n + 1) == Rounds(frame, limit, guard, next, n);
    }
    if Halts(frame, limit, guard, ks) {
      var n: nat :| !Over(frame, limit, Rounds(frame, limit, guard, ks, n));
      assert n > 0;
      assert Rounds(frame, limit, guard, ks, n) == Rounds(frame, limit, guard, next, n - 1);
    }
  }

  /** With no summary over 160 characters every round drops an entry. */
  lemma {:induction false} DroppingHalts(frame: Frame, limit: nat, ks: seq<Kept>)
    requires FirstLow(ks).None? && !HasLong(ks)
    ensures Halts(frame, limit, KEEP, ks)
    decreases |ks|
  {
    if !Over(frame, limit, ks) {
      HaltsNow(frame, limit, KEEP, ks);
    } else {
      LongestIsLong(ks);
      HaltsLater(frame, limit, KEEP, ks);
      assert FirstLow(ks[1..]).None?;
      assert forall k :: k in ks[1..] ==> k in ks;
      DroppingHalts(frame, limit, ks[1..]);
    }
  }

  /** What must hold of the high-value entries for the written loop to end. */
  predicate WrittenLoopFits(frame: Frame, limit: nat, ks: seq<Kept>) {
    HasLong(HighPart(ks)) ==> Size(frame, Limit(HighPart(ks))) <= limit
  }

  /** The loop as written ends exactly when its high-value entries either hold no summary over 160
      characters or fit the limit once every one of those summaries is cut to 161. */
  lemma {:induction false} WrittenLoopHaltsIff(frame: Frame, limit: nat, ks: seq<Kept>)
    ensures Halts(frame, limit, KEEP, ks) <==> WrittenLoopFits(frame, limit, ks)
    decreases |ks|
  {
    if !Over(frame, limit, ks) {
      HaltsNow(frame, limit, KEEP, ks);
      if HasLong(HighPart(ks)) {
        HighMembers(ks);
        LimitIsSmaller(frame, HighPart(ks));
        HighSize(frame, ks);
      }
    } else if FirstLow(ks).Some? {
      var i := FirstLow(ks).value;
      RemoveLowKeepsHigh(ks, i);
      HaltsLater(frame, limit, KEEP, ks);
      WrittenLoopHaltsIff(frame, limit, RemoveAt(ks, i));
    } else {
      AllHigh(ks);
      if HasLong(ks) {
        if Size(frame, Limit(ks)) <= limit {
          StallingHalts(frame, limit, ks);
        } else {
          forall n: nat ensures Over(frame, limit, Rounds(frame, limit, KEEP, ks, n)) {
            StallsForever(frame, limit, ks, n);
          }
        }
      } else {
        DroppingHalts(frame, limit, ks);
      }
    }
  }

  // ----- the loop with the guard at 161

  /** With the guard one character higher every run ends: each round drops an entry or shortens one. */
  lemma {:induction false} RepairedLoopHalts(frame: Frame, limit: nat, guard: nat, ks: seq<Kept>)
    requires guard > KEEP
    ensures Halts(frame, limit, guard, ks)
    decreases |ks|, TotalLen(ks)
  {
    if !Over(frame, limit, ks) {
      HaltsNow(frame, limit, guard, ks);
    } else {
      HaltsLater(frame, limit, guard, ks);
      if FirstLow(ks).None? && Len(ks[Longest(ks)]) > guard {
        var l := Longest(ks);
        CutKeepsSettled(SummaryOf(ks[l]));
        TotalUpdate(ks, l, WithSummary(ks[l], CutText(SummaryOf(ks[l]))));
      }
      RepairedLoopHalts(frame, limit, guard, TrimStep(guard, ks));
    }
  }
}
