/** `ContextCompactor.compact`: drop duplicates, select by relevance and recency, sort, then trim until
    the serialised selection fits. */
module ContextCompactor {
  import opened Wrappers
  import opened Text
  import Sorting

  /** A history entry. `facts` is the canonical text of every field not named here. */
  datatype Entry = Entry(id: string, kind: string, timestamp: string, turn: int, summary: Option<string>, facts: string)

  /** An entry that survived deduplication, with its fingerprint. */
  datatype Kept = Kept(entry: Entry, fingerprint: string)

  const HIGH_VALUE_KINDS: set<string> :=
    {"error", "criterion", "artifact", "artifact_validation", "verification", "mutation", "approval", "strategy",
        "user"}

  const ELLIPSIS := '\U{2026}'
  const KEEP := 160

  predicate High(k: Kept) {
    k.entry.kind in HIGH_VALUE_KINDS
  }

  function SummaryOf(k: Kept): string {
    if k.entry.summary.Some? then k.entry.summary.value else ""
  }

  function Len(k: Kept): nat {
    |SummaryOf(k)|
  }

  function WithSummary(k: Kept, s: string): Kept {
    k.(entry := k.entry.(summary := Some(s)))
  }

  // ----- normalised entries and fingerprints

  function Squeeze(s: string): string {
    if s == "" then ""
    else if IsSpace(s[0]) then (if |s| > 1 && IsSpace(s[1]) then Squeeze(s[1..]) else " " + Squeeze(s[1..]))
    else [s[0]] + Squeeze(s[1..])
  }

  function Truncate(s: string, n: nat): string {
    if |s| <= n then s else s[..n]
  }

  /** `_normalized_entry`. */
  function Normalized(e: Entry): Entry {
    match e.summary
    case None => e
    case Some(s) => e.(summary := Some(Truncate(Strip(Squeeze(s)), 2000)))
  }

  /** What the fingerprint is taken of: everything but id, timestamp and turn. */
  function FingerprintSource(e: Entry): Entry {
    e.(id := "", timestamp := "", turn := 0)
  }

  type Digest = Entry -> string

  function Print(digest: Digest, e: Entry): string {
    digest(FingerprintSource(e))
  }

  // ----- deduplication

  ghost predicate Seen(ks: seq<Kept>, stamp: string) {
    exists k :: k in ks && k.fingerprint == stamp
  }

  function Deduplicated(digest: Digest, entries: seq<Entry>): seq<Kept> {
    if entries == [] then []
    else
      var before := Deduplicated(digest, entries[..|entries| - 1]);
      var last := entries[|entries| - 1];
      var stamp := Print(digest, last);
      if exists k :: k in before && k.fingerprint == stamp then before else before + [Kept(last, stamp)]
  }

  ghost predicate DistinctPrints(ks: seq<Kept>) {
    forall i, j :: 0 <= i < j < |ks| ==> ks[i].fingerprint != ks[j].fingerprint
  }

  ghost predicate FirstOccurrence(digest: Digest, entries: seq<Entry>, k: Kept, i: nat) {
    && i < |entries| && entries[i] == k.entry && Print(digest, entries[i]) == k.fingerprint
    && forall j :: 0 <= j < i ==> Print(digest, entries[j]) != k.fingerprint
  }

  ghost predicate AllFirst(digest: Digest, entries: seq<Entry>, ks: seq<Kept>) {
    forall k :: k in ks ==> exists i :: FirstOccurrence(digest, entries, k, i)
  }

  ghost predicate AllSeen(digest: Digest, entries: seq<Entry>, ks: seq<Kept>) {
    forall e :: e in entries ==> Seen(ks, Print(digest, e))
  }

  /** The kept entries carry pairwise distinct fingerprints, each is the first entry with its
      fingerprint, and every entry's fingerprint is kept. */
  lemma {:induction false} DeduplicatedSpec(digest: Digest, entries: seq<Entry>)
    ensures var d := Deduplicated(digest, entries);
            |d| <= |entries| && DistinctPrints(d) && AllFirst(digest, entries, d) && AllSeen(digest, entries, d)
  {
    if entries != [] {
      var n := |entries| - 1;
      var init, last := entries[..n], entries[n];
      DeduplicatedSpec(digest, init);
      var before := Deduplicated(digest, init);
      StillFirst(digest, entries, before);
      var k := Kept(last, Print(digest, last));
      assert Deduplicated(digest, entries) == if Seen(before, k.fingerprint) then before else before + [k];
      hide Print, Deduplicated, FirstOccurrence, Seen, DistinctPrints, AllFirst, AllSeen;
      if Seen(before, k.fingerprint) {
        SeenAlready(digest, entries, before);
      } else {
        LastIsFirst(digest, entries, before);
        AppendDistinct(before, k);
      }
    }
  }

  lemma StillFirst(digest: Digest, entries: seq<Entry>, ks: seq<Kept>)
    requires entries != [] && AllFirst(digest, entries[..|entries| - 1], ks)
    ensures AllFirst(digest, entries, ks)
  {
    hide Print;
    forall k | k in ks ensures exists i :: FirstOccurrence(digest, entries, k, i) {
      var i :| FirstOccurrence(digest, entries[..|entries| - 1], k, i);
      assert FirstOccurrence(digest, entries, k, i);
    }
  }

  lemma SeenAlready(digest: Digest, entries: seq<Entry>, ks: seq<Kept>)
    requires entries != [] && AllSeen(digest, entries[..|entries| - 1], ks)
    requires Seen(ks, Print(digest, entries[|entries| - 1]))
    ensures AllSeen(digest, entries, ks)
  {
    hide Print, Seen;
    assert forall e :: e in entries <==> e in entries[..|entries| - 1] || e == entries[|entries| - 1];
  }

  lemma AppendDistinct(ks: seq<Kept>, k: Kept)
    requires DistinctPrints(ks) && !Seen(ks, k.fingerprint)
    ensures DistinctPrints(ks + [k])
  {
  }

  /** An entry whose fingerprint was not kept before is the first with its fingerprint. */
  lemma LastIsFirst(digest: Digest, entries: seq<Entry>, before: seq<Kept>)
    requires entries != [] && !Seen(before, Print(digest, entries[|entries| - 1]))
    requires AllFirst(digest, entries, before) && AllSeen(digest, entries[..|entries| - 1], before)
    ensures var k := Kept(entries[|entries| - 1], Print(digest, entries[|entries| - 1]));
            AllFirst(digest, entries, before + [k]) && AllSeen(digest, entries, before + [k])
  {
    hide Print;
    var n := |entries| - 1;
    var k := Kept(entries[n], Print(digest, entries[n]));
    forall j | 0 <= j < n ensures Print(digest, entries[j]) != k.fingerprint {
      assert entries[j] in entries[..n];
    }
    assert FirstOccurrence(digest, entries, k, n);
    SeenGrows(digest, entries[..n], before, k);
    assert k in before + [k] && Seen(before + [k], k.fingerprint);
    hide Seen;
    SeenAlready(digest, entries, before + [k]);
  }

  lemma SeenGrows(digest: Digest, entries: seq<Entry>, ks: seq<Kept>, k: Kept)
    requires AllSeen(digest, entries, ks)
    ensures AllSeen(digest, entries, ks + [k])
  {
    hide Print;
    forall e | e in entries ensures Seen(ks + [k], Print(digest, e)) {
      var kept :| kept in ks && kept.fingerprint == Print(digest, e);
      assert kept in ks + [k];
    }
  }

  // ----- selection

  function HighPart(ks: seq<Kept>): seq<Kept> {
    if ks == [] then []
    else if High(ks[0]) then [ks[0]] + HighPart(ks[1..])
    else HighPart(ks[1..])
  }

  function LowPart(ks: seq<Kept>): seq<Kept> {
    if ks == [] then []
    else if High(ks[0]) then LowPart(ks[1..])
    else [ks[0]] + LowPart(ks[1..])
  }

  function StartRecent(n: nat, recent: nat): nat {
    if n > recent then n - recent else 0
  }

  predicate EntryLess(a: Kept, b: Kept) {
    || StrLess(a.entry.timestamp, b.entry.timestamp)
    || (a.entry.timestamp == b.entry.timestamp
        && (a.entry.turn < b.entry.turn
            || (a.entry.turn == b.entry.turn && StrLess(a.entry.id, b.entry.id))))
  }

  /** Every high-value entry, and of the recent ones also the others, in time order. */
  function Selected(ks: seq<Kept>, recent: nat): seq<Kept> {
    Sorting.SortBy(EntryLess, HighPart(ks) + LowPart(ks[StartRecent(|ks|, recent)..]))
  }

  // ----- the serialised size

  /** Characters one character of a text takes in JSON that is not escaped to ASCII. */
  function JsonChar(c: char): nat {
    if c == '"' || c == '\\' || c == '\n' || c == '\r' || c == '\t' || c == '\U{8}' || c == '\U{C}' then 2
    else if c < ' ' then 6
    else 1
  }

  function JsonChars(s: string): nat {
    if s == "" then 0 else JsonChar(s[0]) + JsonChars(s[1..])
  }

  /** Length of an entry's canonical text without the characters of its summary. */
  type Frame = Kept -> nat

  function Blanked(k: Kept): Kept {
    if k.entry.summary.Some? then WithSummary(k, "") else k
  }

  function EntrySize(frame: Frame, k: Kept): nat {
    frame(Blanked(k)) + JsonChars(SummaryOf(k))
  }

  function EntriesSize(frame: Frame, ks: seq<Kept>): nat {
    if ks == [] then 0 else EntrySize(frame, ks[0]) + EntriesSize(frame, ks[1..])
  }

  /** `len(canonical_json(selected))`: brackets, entries and the commas between them. */
  function Size(frame: Frame, ks: seq<Kept>): nat {
    2 + EntriesSize(frame, ks) + (if ks == [] then 0 else |ks| - 1)
  }

  // ----- one round of the trimming loop

  predicate Over(frame: Frame, limit: nat, ks: seq<Kept>) {
    ks != [] && Size(frame, ks) > limit
  }

  function FirstLow(ks: seq<Kept>): (r: Option<nat>)
    ensures r.Some? ==> r.value < |ks| && !High(ks[r.value]) && forall j :: 0 <= j < r.value ==> High(ks[j])
    ensures r.None? ==> forall j :: 0 <= j < |ks| ==> High(ks[j])
  {
    if ks == [] then None
    else if !High(ks[0]) then Some(0)
    else
      var rest := FirstLow(ks[1..]);
      if rest.Some? then Some(rest.value + 1) else None
  }

  /** The first index of a longest summary. */
  function Longest(ks: seq<Kept>): (r: nat)
    requires ks != []
    ensures r < |ks|
    ensures forall j :: 0 <= j < |ks| ==> Len(ks[j]) <= Len(ks[r])
    ensures forall j :: 0 <= j < r ==> Len(ks[j]) < Len(ks[r])
  {
    if |ks| == 1 then 0
    else
      var rest := Longest(ks[1..]);
      if Len(ks[0]) >= Len(ks[1..][rest]) then 0 else rest + 1
  }

  function CutText(s: string): string
    requires |s| > KEEP
  {
    s[..if |s| / 2 > KEEP then |s| / 2 else KEEP] + [ELLIPSIS]
  }

  function RemoveAt(ks: seq<Kept>, i: nat): seq<Kept>
    requires i < |ks|
  {
    ks[..i] + ks[i + 1..]
  }

  function CutLongest(ks: seq<Kept>): seq<Kept>
    requires ks != [] && Len(ks[Longest(ks)]) > KEEP
  {
    var l := Longest(ks);
    ks[l := WithSummary(ks[l], CutText(SummaryOf(ks[l])))]
  }

  /** The loop body; `guard` is the length up to which an entry is dropped rather than shortened,
      160 as written. */
  function TrimStep(guard: nat, ks: seq<Kept>): seq<Kept>
    requires ks != [] && guard >= KEEP
  {
    var low := FirstLow(ks);
    if low.Some? then RemoveAt(ks, low.value)
    else if Len(ks[Longest(ks)]) <= guard then ks[1..]
    else CutLongest(ks)
  }

  /** The selection after at most `n` rounds. */
  function Rounds(frame: Frame, limit: nat, guard: nat, ks: seq<Kept>, n: nat): seq<Kept>
    requires guard >= KEEP
    decreases n
  {
    if n == 0 || !Over(frame, limit, ks) then ks else Rounds(frame, limit, guard, TrimStep(guard, ks), n - 1)
  }

  /** The loop, started on this selection, ends. */
  ghost predicate Halts(frame: Frame, limit: nat, guard: nat, ks: seq<Kept>)
    requires guard >= KEEP
  {
    exists n: nat :: !Over(frame, limit, Rounds(frame, limit, guard, ks, n))
  }
}
