/** `ContextCompactor.compact` as the program runs it, and what the compacted history preserves. */
module ContextCompaction {
  import opened Wrappers
  import opened Text
  import opened ContextCompactor
  import opened ContextTrimming
  import opened ContextLaws
  import Sorting

  // ----- what trimming preserves

  /** The same entry, or the same entry with its long summary cut to a prefix of at least 160 characters. */
  ghost predicate ShortenedOf(k: Kept, o: Kept) {
    || k == o
    || (Len(o) > KEEP && KEEP < Len(k) <= Len(o) && k == WithSummary(o, SummaryOf(k))
        && SummaryOf(k)[..KEEP] == SummaryOf(o)[..KEEP])
  }

  /** `r` is a subsequence of `s` up to shortened summaries. */
  ghost predicate Derived(r: seq<Kept>, s: seq<Kept>) {
    r == []
    || (s != [] && ((ShortenedOf(r[0], s[0]) && Derived(r[1..], s[1..])) || Derived(r, s[1..])))
  }

  lemma {:induction false} DerivedSelf(s: seq<Kept>)
    ensures Derived(s, s)
  {
    if s != [] {
      DerivedSelf(s[1..]);
    }
  }

  lemma {:induction false} DerivedTail(r: seq<Kept>, s: seq<Kept>)
    requires r != [] && Derived(r, s)
    ensures Derived(r[1..], s)
  {
    if ShortenedOf(r[0], s[0]) && Derived(r[1..], s[1..]) {
      assert r[1..] == [] || Derived(r[1..], s);
    } else {
      DerivedTail(r, s[1..]);
    }
  }

  lemma {:induction false} DerivedRemove(r: seq<Kept>, s: seq<Kept>, i: nat)
    requires i < |r| && Derived(r, s)
    ensures Derived(RemoveAt(r, i), s)
    decreases |s|
  {
    var t := RemoveAt(r, i);
    if i == 0 {
      DerivedTail(r, s);
      assert t == r[1..];
    } else if ShortenedOf(r[0], s[0]) && Derived(r[1..], s[1..]) {
      DerivedRemove(r[1..], s[1..], i - 1);
      assert t[1..] == RemoveAt(r[1..], i - 1);
    } else {
      DerivedRemove(r, s[1..], i);
    }
  }

  lemma {:induction false} DerivedUpdate(r: seq<Kept>, s: seq<Kept>, i: nat, k: Kept)
    requires i < |r| && Derived(r, s) && ShortenedOf(k, r[i])
    ensures Derived(r[i := k], s)
    decreases |s|
  {
    var t := r[i := k];
    if ShortenedOf(r[0], s[0]) && Derived(r[1..], s[1..]) {
      if i == 0 {
        assert t[1..] == r[1..];
      } else {
        DerivedUpdate(r[1..], s[1..], i - 1, k);
        assert t[1..] == r[1..][i - 1 := k];
      }
    } else {
      DerivedUpdate(r, s[1..], i, k);
    }
  }

  lemma {:induction false} DerivedOrigin(r: seq<Kept>, s: seq<Kept>, k: Kept) returns (o: Kept)
    requires Derived(r, s) && k in r
    ensures o in s && ShortenedOf(k, o)
    decreases |s|
  {
    if ShortenedOf(r[0], s[0]) && Derived(r[1..], s[1..]) {
      if k == r[0] {
        o := s[0];
      } else {
        o := DerivedOrigin(r[1..], s[1..], k);
      }
    } else {
      o := DerivedOrigin(r, s[1..], k);
    }
  }

  lemma HeadDistinct(ks: seq<Kept>, k: Kept)
    requires DistinctPrints(ks) && ks != [] && k in ks[1..]
    ensures k.fingerprint != ks[0].fingerprint
  {
    var i :| 0 <= i < |ks[1..]| && ks[1..][i] == k;
    assert ks[i + 1] == k;
  }

  lemma ConsDistinct(ks: seq<Kept>)
    requires ks != [] && DistinctPrints(ks[1..])
    requires forall k :: k in ks[1..] ==> k.fingerprint != ks[0].fingerprint
    ensures DistinctPrints(ks)
  {
    forall i, j | 0 <= i < j < |ks| ensures ks[i].fingerprint != ks[j].fingerprint {
      assert ks[j] == ks[1..][j - 1];
      if i > 0 {
        assert ks[i] == ks[1..][i - 1];
      }
    }
  }

  lemma {:induction false} DerivedDistinct(r: seq<Kept>, s: seq<Kept>)
    requires Derived(r, s) && DistinctPrints(s)
    ensures DistinctPrints(r)
    decreases |s|
  {
    if r != [] {
      if ShortenedOf(r[0], s[0]) && Derived(r[1..], s[1..]) {
        DerivedDistinct(r[1..], s[1..]);
        forall k | k in r[1..] ensures k.fingerprint != r[0].fingerprint {
          var o := DerivedOrigin(r[1..], s[1..], k);
          HeadDistinct(s, o);
        }
        ConsDistinct(r);
      } else {
        DerivedDistinct(r, s[1..]);
      }
    }
  }

  /** While a low-value entry remains, every high-value entry remains untouched. */
  ghost predicate HighFirst(r: seq<Kept>, s: seq<Kept>) {
    (exists k :: k in r && !High(k)) ==> HighPart(r) == HighPart(s)
  }

  lemma CutIsShortened(k: Kept)
    requires Len(k) > KEEP
    ensures ShortenedOf(WithSummary(k, CutText(SummaryOf(k))), k)
  {
    var s := SummaryOf(k);
    assert CutText(s)[..KEEP] == s[..KEEP];
    if |s| == KEEP + 1 {
      CutOfShortest(s);
    } else {
      CutKeepsSettled(s);
    }
  }

  lemma NoLowLeft(r: seq<Kept>, s: seq<Kept>)
    requires FirstLow(r).None?
    ensures HighFirst(r, s)
  {
  }

  ghost predicate Unsettled(r: seq<Kept>) {
    r != [] && FirstLow(r).None? && Len(r[Longest(r)]) > KEEP && CutLongest(r) != r
  }

  /** The list is reached from the selection by rounds of the loop, each of them on a list still too long. */
  ghost predicate ReachedBy(frame: Frame, limit: nat, guard: nat, selected: seq<Kept>, r: seq<Kept>, n: nat)
    requires guard >= KEEP
  {
    && r == Rounds(frame, limit, guard, selected, n)
    && forall m: nat :: m < n ==> Over(frame, limit, Rounds(frame, limit, guard, selected, m))
  }

  lemma ReachedNext(frame: Frame, limit: nat, guard: nat, selected: seq<Kept>, r: seq<Kept>, n: nat)
    requires guard >= KEEP && ReachedBy(frame, limit, guard, selected, r, n) && Over(frame, limit, r) && r != []
    ensures ReachedBy(frame, limit, guard, selected, TrimStep(guard, r), n + 1)
  {
    hide Over, TrimStep, Rounds;
    RoundsNext(frame, limit, guard, selected, n);
  }

  lemma ReachedStart(frame: Frame, limit: nat, guard: nat, selected: seq<Kept>)
    requires guard >= KEEP
    ensures ReachedBy(frame, limit, guard, selected, selected, 0)
  {
  }

  /** The trimming loop. It returns early, with `ends` false, at a state that its body maps to itself
      while the text is still too long: from there the loop as written repeats forever. */
  method Trim(frame: Frame, limit: nat, guard: nat, selected: seq<Kept>) returns (r: seq<Kept>, ends: bool)
    requires guard >= KEEP
    ensures ends <==> Halts(frame, limit, guard, selected)
    ensures guard == KEEP ==> (ends <==> WrittenLoopFits(frame, limit, selected))
    ensures guard > KEEP ==> ends
    ensures ends ==> r == [] || Size(frame, r) <= limit
    ensures Derived(r, selected) && HighFirst(r, selected)
    ensures exists n: nat :: ReachedBy(frame, limit, guard, selected, r, n)
  {
    hide Size, HighPart, Limit, Rounds, Halts, ReachedBy;
    if guard == KEEP {
      WrittenLoopHaltsIff(frame, limit, selected);
    } else {
      RepairedLoopHalts(frame, limit, guard, selected);
    }
    r := selected;
    ghost var n: nat := 0;
    ReachedStart(frame, limit, guard, selected);
    DerivedSelf(selected);
    while Over(frame, limit, r)
      invariant Halts(frame, limit, guard, r) <==> Halts(frame, limit, guard, selected)
      invariant Derived(r, selected) && HighFirst(r, selected)
      invariant ReachedBy(frame, limit, guard, selected, r, n)
      decreases |r|, TotalLen(r), if Unsettled(r) then 1 else 0
    {
      HaltsLater(frame, limit, guard, r);
      ReachedNext(frame, limit, guard, selected, r, n);
      var removable := FirstLow(r);
      if removable.Some? {
        RemoveLowKeepsHigh(r, removable.value);
        DerivedRemove(r, selected, removable.value);
        assert r[removable.value] in r;
        r := RemoveAt(r, removable.value);
      } else {
        var longest := Longest(r);
        var summary := SummaryOf(r[longest]);
        if |summary| <= guard {
          DerivedTail(r, selected);
          NoLowLeft(r[1..], selected);
          r := r[1..];
        } else {
          var shortened := WithSummary(r[longest], CutText(summary));
          var next := r[longest := shortened];
          CutIsShortened(r[longest]);
          DerivedUpdate(r, selected, longest, shortened);
          LongestIsLong(r);
          CutLongestFacts(r);
          NoLowLeft(next, selected);
          TotalUpdate(r, longest, shortened);
          if |summary| == KEEP + 1 {
            CutAtTheEnd(r);
          } else {
            CutKeepsSettled(summary);
          }
          if next == r {
            StuckNeverHalts(frame, limit, r);
            return r, false;
          }
          r := next;
        }
      }
      n := n + 1;
    }
    HaltsNow(frame, limit, guard, r);
    ends := true;
  }

  lemma StuckNeverHalts(frame: Frame, limit: nat, r: seq<Kept>)
    requires Over(frame, limit, r) && Stalling(r) && Len(r[Longest(r)]) > KEEP && CutLongest(r) == r
    ensures Limit(r) == r && !Halts(frame, limit, KEEP, r)
  {
    CutLeadsToLimit(r);
    var s := SummaryOf(r[Longest(r)]);
    assert SummaryOf(CutLongest(r)[Longest(r)]) == CutText(s);
    if |s| > KEEP + 1 {
      CutKeepsSettled(s);
    }
    forall n: nat ensures Over(frame, limit, Rounds(frame, limit, KEEP, r, n)) {
      StallsForever(frame, limit, r, n);
    }
  }

  // ----- the selection is a set of distinct entries in time order

  lemma {:induction false} LowMembers(ks: seq<Kept>)
    ensures forall k :: k in LowPart(ks) <==> k in ks && !High(k)
  {
    if ks != [] {
      LowMembers(ks[1..]);
    }
  }

  lemma {:induction false} PartsDistinct(ks: seq<Kept>)
    requires DistinctPrints(ks)
    ensures DistinctPrints(HighPart(ks)) && DistinctPrints(LowPart(ks))
  {
    if ks != [] {
      PartsDistinct(ks[1..]);
      HighMembers(ks[1..]);
      LowMembers(ks[1..]);
      forall k | k in ks[1..] ensures k.fingerprint != ks[0].fingerprint {
        HeadDistinct(ks, k);
      }
      var part := if High(ks[0]) then HighPart(ks) else LowPart(ks);
      assert part[1..] == if High(ks[0]) then HighPart(ks[1..]) else LowPart(ks[1..]);
      ConsDistinct(part);
    }
  }

  lemma {:induction false} DistinctCount(ks: seq<Kept>, x: Kept)
    requires DistinctPrints(ks)
    ensures multiset(ks)[x] <= 1
  {
    if ks != [] {
      DistinctCount(ks[1..], x);
      assert ks == [ks[0]] + ks[1..];
      if x == ks[0] {
        assert x !in ks[1..];
      }
    }
  }

  lemma DistinctPermutes(a: seq<Kept>, b: seq<Kept>)
    requires DistinctPrints(a) && multiset(a) == multiset(b)
    ensures DistinctPrints(b)
  {
    Sorting.SameElements(a, b);
    forall i, j | 0 <= i < j < |b| ensures b[i].fingerprint != b[j].fingerprint {
      assert b[i] in a && b[j] in a;
      if b[i] == b[j] {
        Sorting.CountsTwice(b, i, j);
        DistinctCount(a, b[i]);
      }
    }
  }

  lemma EntryOrder()
    ensures Sorting.StrictWeak(EntryLess)
  {
    forall a, b ensures EntryLess(a, b) ==> !EntryLess(b, a) {
      StrLessTotal(a.entry.timestamp, b.entry.timestamp);
      StrLessTotal(a.entry.id, b.entry.id);
    }
    forall a, b, c | !EntryLess(a, b) && !EntryLess(b, c) ensures !EntryLess(a, c) {
      StrNotLess(a.entry.timestamp, b.entry.timestamp, c.entry.timestamp);
      StrNotLess(a.entry.id, b.entry.id, c.entry.id);
      StrLessTotal(a.entry.timestamp, b.entry.timestamp);
      StrLessTotal(b.entry.timestamp, c.entry.timestamp);
      StrLessTotal(a.entry.timestamp, c.entry.timestamp);
    }
  }

  /** The kinds that are kept whatever their age. */
  ghost predicate HighValue(kind: string) {
    || kind == "error" || kind == "criterion" || kind == "artifact" || kind == "artifact_validation"
    || kind == "verification" || kind == "mutation" || kind == "approval" || kind == "strategy" || kind == "user"
  }

  lemma HighExact(k: Kept)
    ensures High(k) <==> HighValue(k.entry.kind)
  {
  }

  /** What the part from the start of the recent entries holds. */
  lemma RecentMembers(ks: seq<Kept>, recent: nat)
    ensures StartRecent(|ks|, recent) <= |ks|
    ensures forall k :: k in ks[StartRecent(|ks|, recent)..] <==>
              exists i :: 0 <= i < |ks| && ks[i] == k && i >= |ks| - recent
  {
    var start := StartRecent(|ks|, recent);
    var tail := ks[start..];
    assert forall i :: 0 <= i < |tail| ==> tail[i] == ks[start + i];
    assert forall i :: start <= i < |ks| ==> tail[i - start] == ks[i];
  }

  /** The selection holds each entry once, in time order: those of a high-value kind, and the last
      `recent` ones of any kind. */
  lemma SelectedSpec(ks: seq<Kept>, recent: nat)
    requires DistinctPrints(ks)
    ensures var s := Selected(ks, recent);
            && DistinctPrints(s)
            && (forall k :: k in s <==>
                  exists i :: 0 <= i < |ks| && ks[i] == k && (HighValue(k.entry.kind) || i >= |ks| - recent))
            && forall i, j :: 0 <= i < j < |s| ==> InTimeOrder(s[i].entry, s[j].entry)
  {
    var start := StartRecent(|ks|, recent);
    var high, low := HighPart(ks), LowPart(ks[start..]);
    HighMembers(ks);
    LowMembers(ks[start..]);
    PartsDistinct(ks);
    PartsDistinct(ks[start..]);
    forall h, l | h in high && l in low ensures h.fingerprint != l.fingerprint {
      SamePrintSameEntry(ks, h, l);
    }
    assert DistinctPrints(high + low);
    Sorting.SortBySpec(EntryLess, high + low);
    EntryOrder();
    DistinctPermutes(high + low, Selected(ks, recent));
    SelectedMembers(ks, recent, high, low);
    forall a, b ensures !EntryLess(b, a) ==> InTimeOrder(a.entry, b.entry) {
      StrLessTotal(a.entry.timestamp, b.entry.timestamp);
    }
  }

  /** By timestamp, then by turn, then by identity. */
  ghost predicate InTimeOrder(a: Entry, b: Entry) {
    || StrLess(a.timestamp, b.timestamp)
    || (a.timestamp == b.timestamp
        && (a.turn < b.turn || (a.turn == b.turn && !StrLess(b.id, a.id))))
  }

  lemma SelectedMembers(ks: seq<Kept>, recent: nat, high: seq<Kept>, low: seq<Kept>)
    requires forall k :: k in high <==> k in ks && High(k)
    requires StartRecent(|ks|, recent) <= |ks|
    requires forall k :: k in low <==> k in ks[StartRecent(|ks|, recent)..] && !High(k)
    ensures forall k :: k in high + low <==>
              exists i :: 0 <= i < |ks| && ks[i] == k && (HighValue(k.entry.kind) || i >= |ks| - recent)
  {
    hide StartRecent, High, HighValue;
    RecentMembers(ks, recent);
    forall k ensures High(k) <==> HighValue(k.entry.kind) {
      HighExact(k);
    }
  }

  lemma SamePrintSameEntry(ks: seq<Kept>, a: Kept, b: Kept)
    requires DistinctPrints(ks) && a in ks && b in ks && a != b
    ensures a.fingerprint != b.fingerprint
  {
    var i :| 0 <= i < |ks| && ks[i] == a;
    var j :| 0 <= j < |ks| && ks[j] == b;
    assert i < j || j < i;
  }

  // ----- the whole of compact

  function NormalizedAll(entries: seq<Entry>): (r: seq<Entry>)
    ensures |r| == |entries|
    ensures forall i :: 0 <= i < |entries| ==> r[i] == Normalized(entries[i])
  {
    seq(|entries|, i requires 0 <= i < |entries| => Normalized(entries[i]))
  }

  function AtLeast(minimum: nat, value: int): nat {
    if value > minimum then value else minimum
  }

  /** The deduplication loop with its set of seen fingerprints. */
  method DropDuplicates(digest: Digest, entries: seq<Entry>) returns (kept: seq<Kept>, duplicates: nat)
    ensures kept == Deduplicated(digest, entries) && duplicates == |entries| - |kept|
    ensures DistinctPrints(kept)
    ensures forall k :: k in kept ==> exists i :: FirstOccurrence(digest, entries, k, i)
    ensures forall e :: e in entries ==> Seen(kept, Print(digest, e))
  {
    kept, duplicates := [], 0;
    var seen: set<string> := {};
    for i := 0 to |entries|
      invariant kept == Deduplicated(digest, entries[..i])
      invariant seen == set k | k in kept :: k.fingerprint
      invariant |kept| + duplicates == i
    {
      var fingerprint := Print(digest, entries[i]);
      assert entries[..i + 1][..i] == entries[..i];
      if fingerprint in seen {
        duplicates := duplicates + 1;
      } else {
        seen := seen + {fingerprint};
        kept := kept + [Kept(entries[i], fingerprint)];
      }
    }
    assert entries[..|entries|] == entries;
    DeduplicatedSpec(digest, entries);
  }

  /** `compact`, with the loop as written. Deduplication accounts for every input entry; the output
      holds distinct first occurrences of the selection in order, at most their summaries shortened,
      no high-value entry touched while a low-value one remains, within the limit when the loop ends;
      and the loop ends exactly when the high-value part can be made to fit. */
  method Compact(digest: Digest, frame: Frame, entries: seq<Entry>, maximumCharacters: int, recentCount: int)
    returns (output: seq<Kept>, kept: seq<Kept>, duplicates: nat, ends: bool)
    ensures kept == Deduplicated(digest, NormalizedAll(entries)) && |kept| + duplicates == |entries|
    ensures var selected, limit := Selected(kept, AtLeast(1, recentCount)), AtLeast(2000, maximumCharacters);
            && Derived(output, selected) && HighFirst(output, selected) && DistinctPrints(output)
            && (ends <==> WrittenLoopFits(frame, limit, selected))
            && (ends ==> output == [] || Size(frame, output) <= limit)
            && exists n: nat :: ReachedBy(frame, limit, KEEP, selected, output, n)
    ensures forall k :: k in output ==>
              exists o, i :: ShortenedOf(k, o) && FirstOccurrence(digest, NormalizedAll(entries), o, i)
  {
    hide Selected, Size, WrittenLoopFits, Derived, HighFirst, Halts, ReachedBy;
    var limit, recent := AtLeast(2000, maximumCharacters), AtLeast(1, recentCount);
    kept, duplicates := DropDuplicates(digest, NormalizedAll(entries));
    var selected := Selected(kept, recent);
    SelectedSpec(kept, recent);
    output, ends := Trim(frame, limit, KEEP, selected);
    DerivedDistinct(output, selected);
    forall k | k in output
      ensures exists o, i :: ShortenedOf(k, o) && FirstOccurrence(digest, NormalizedAll(entries), o, i)
    {
      var o := DerivedOrigin(output, selected, k);
      assert o in kept;
    }
  }
}
