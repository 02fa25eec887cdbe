/** Histories that `compact` never finishes: what its first steps make of them and why the loop hangs. */
module ContextHangs {
  import opened Wrappers
  import opened Text
  import opened ContextCompactor
  import opened ContextTrimming
  import opened ContextCompaction
  import Sorting

  // ----- long high-value entries that cannot fit

  lemma {:induction false} SizeAtLeast(frame: Frame, ks: seq<Kept>, n: nat)
    requires forall k :: k in ks ==> Len(k) >= n
    ensures EntriesSize(frame, ks) >= n * |ks|
  {
    if ks != [] {
      assert ks[0] in ks;
      JsonAtLeast(SummaryOf(ks[0]));
      SizeAtLeast(frame, ks[1..], n);
      assert n * |ks| == n + n * |ks[1..]|;
    }
  }

  lemma LimitStaysLong(ks: seq<Kept>)
    requires HasLong(ks) && forall k :: k in ks ==> Len(k) > KEEP
    ensures |Limit(ks)| == |ks| && forall k :: k in Limit(ks) ==> Len(k) > KEEP
  {
    SettleKeepsLong(ks);
    var settled := SettleAll(ks);
    LongestIsLong(settled);
    var l := Longest(settled);
    var cut := CutText(SummaryOf(settled[l]));
    assert |cut| > KEEP;
    assert Limit(ks) == settled[l := WithSummary(settled[l], cut)];
    forall j | 0 <= j < |ks| ensures Len(Limit(ks)[j]) > KEEP {
      assert ks[j] in ks;
    }
  }

  /** High-value entries with summaries over 160 characters are never made to fit a limit below 161 for
      each of them. */
  lemma LongSummariesHang(frame: Frame, limit: nat, ks: seq<Kept>)
    requires forall k :: k in ks ==> High(k) && Len(k) > KEEP
    requires (KEEP + 1) * |ks| > limit
    ensures !Halts(frame, limit, KEEP, ks)
  {
    hide SettleAll, HighPart, Limit, High;
    WrittenLoopHaltsIff(frame, limit, ks);
    assert ks[0] in ks;
    AllHigh(ks);
    LimitStaysLong(ks);
    SizeAtLeast(frame, Limit(ks), KEEP + 1);
  }

  // ----- what compaction makes of distinct high-value entries

  ghost predicate DistinctEntries(digest: Digest, entries: seq<Entry>) {
    forall i, j :: 0 <= i < j < |entries| ==> Print(digest, entries[i]) != Print(digest, entries[j])
  }

  /** Entries with pairwise distinct fingerprints are all kept. */
  lemma {:induction false} AllKept(digest: Digest, entries: seq<Entry>)
    requires DistinctEntries(digest, entries)
    ensures var d := Deduplicated(digest, entries);
            |d| == |entries| && forall i :: 0 <= i < |d| ==> d[i] == Kept(entries[i], Print(digest, entries[i]))
  {
    hide Print;
    if entries != [] {
      var n := |entries| - 1;
      AllKept(digest, entries[..n]);
      var before := Deduplicated(digest, entries[..n]);
      forall k | k in before ensures k.fingerprint != Print(digest, entries[n]) {
        var i :| 0 <= i < |before| && before[i] == k;
        assert entries[..n][i] == entries[i];
      }
      assert Deduplicated(digest, entries) == before + [Kept(entries[n], Print(digest, entries[n]))];
    }
  }

  lemma {:induction false} NoLow(ks: seq<Kept>)
    requires forall k :: k in ks ==> High(k)
    ensures HighPart(ks) == ks && LowPart(ks) == []
  {
    hide High;
    if ks != [] {
      assert ks[0] in ks;
      NoLow(ks[1..]);
    }
  }

  /** High-value entries are all selected. */
  lemma AllSelected(ks: seq<Kept>, recent: nat)
    requires forall k :: k in ks ==> High(k)
    ensures |Selected(ks, recent)| == |ks| && forall k :: k in Selected(ks, recent) <==> k in ks
  {
    hide High;
    NoLow(ks);
    NoLow(ks[StartRecent(|ks|, recent)..]);
    assert ks + [] == ks;
    Sorting.SortBySpec(EntryLess, ks);
  }

  /** `compact` never finishes on a history of high-value entries, pairwise distinct by their prints, whose
      summaries exceed 160 characters and of which there is more than one for each 161 characters of
      the limit. */
  lemma LongHistoriesHang(digest: Digest, frame: Frame, limit: nat, entries: seq<Entry>, recent: nat)
    requires DistinctEntries(digest, NormalizedAll(entries))
    requires forall e :: e in entries ==>
               e.kind in HIGH_VALUE_KINDS && Normalized(e).summary.Some? && |Normalized(e).summary.value| > KEEP
    requires (KEEP + 1) * |entries| > limit
    ensures !Halts(frame, limit, KEEP, Selected(Deduplicated(digest, NormalizedAll(entries)), recent))
  {
    var normal := NormalizedAll(entries);
    AllKept(digest, normal);
    var kept := Deduplicated(digest, normal);
    forall k | k in kept ensures High(k) && Len(k) > KEEP {
      var i :| 0 <= i < |kept| && kept[i] == k;
      assert entries[i] in entries;
    }
    hide Deduplicated, Normalized, High, Selected, Halts;
    AllSelected(kept, recent);
    LongSummariesHang(frame, limit, Selected(kept, recent));
  }

  // ----- one such history

  lemma {:induction false} Squeezed(s: string)
    requires forall c :: c in s ==> !IsSpace(c)
    ensures Squeeze(s) == s
  {
    hide IsSpace;
    if s != "" {
      assert s[0] in s;
      Squeezed(s[1..]);
    }
  }

  /** An error entry whose summary is one letter of its own and 160 times "x". */
  function ErrorEntry(i: nat): Entry
    requires i < 26
  {
    Entry("", "error", "", 0, Some([('a' as int + i) as char] + seq(KEEP, _ => 'x')), "")
  }

  function ErrorHistory(n: nat): (r: seq<Entry>)
    requires n <= 26
    ensures |r| == n
    ensures forall i :: 0 <= i < n ==> r[i] == ErrorEntry(i)
  {
    seq(n, i requires 0 <= i < n => ErrorEntry(i))
  }

  lemma ErrorEntryIsNormal(i: nat)
    requires i < 26
    ensures Normalized(ErrorEntry(i)) == ErrorEntry(i) && FingerprintSource(ErrorEntry(i)) == ErrorEntry(i)
  {
    var s := ErrorEntry(i).summary.value;
    assert !IsSpace('x') && !IsSpace(s[0]);
    hide IsSpace;
    forall c | c in s ensures !IsSpace(c) {
      var j :| 0 <= j < |s| && s[j] == c;
      assert j > 0 ==> s[j] == 'x';
    }
    Squeezed(s);
    assert s[|s| - 1] == 'x';
    StripFixed(s);
  }

  lemma ErrorEntriesDiffer(i: nat, j: nat)
    requires i < j < 26
    ensures ErrorEntry(i) != ErrorEntry(j)
  {
    assert ErrorEntry(i).summary.value[0] != ErrorEntry(j).summary.value[0];
  }

  /** For a collision-free digest the written loop never ends on thirteen errors of 161 characters each, at
      the smallest limit `compact` allows and whatever the number of recent entries. */
  lemma WrittenLoopHangs(digest: Digest, frame: Frame, recent: nat)
    requires forall a, b :: digest(a) == digest(b) ==> a == b
    ensures !Halts(frame, AtLeast(2000, 0), KEEP,
            Selected(Deduplicated(digest, NormalizedAll(ErrorHistory(13))), recent))
  {
    hide Normalized, FingerprintSource, ErrorEntry, Halts, Selected, Deduplicated;
    var entries := ErrorHistory(13);
    var normal := NormalizedAll(entries);
    forall i | 0 <= i < 13 ensures normal[i] == ErrorEntry(i) && FingerprintSource(normal[i]) == ErrorEntry(i) {
      ErrorEntryIsNormal(i);
    }
    forall i, j | 0 <= i < j < 13 ensures Print(digest, normal[i]) != Print(digest, normal[j]) {
      ErrorEntriesDiffer(i, j);
    }
    forall e | e in entries
      ensures e.kind in HIGH_VALUE_KINDS && Normalized(e).summary.Some? && |Normalized(e).summary.value| > KEEP
    {
      var i :| 0 <= i < 13 && entries[i] == e;
      ErrorEntryIsNormal(i);
      ErrorEntryIsLong(i);
    }
    LongHistoriesHang(digest, frame, 2000, entries, recent);
  }

  lemma ErrorEntryIsLong(i: nat)
    requires i < 26
    ensures var e := ErrorEntry(i); e.kind in HIGH_VALUE_KINDS && e.summary.Some? && |e.summary.value| == KEEP + 1
  {
  }
}
