/** What the parts of the compactor compute, apart from how: the normal form of a summary, what a
    fingerprint ignores, the length of the serialised selection, and one round of trimming. */
module ContextLaws {
  import opened Wrappers
  import opened Text
  import opened ContextCompactor
  import opened ContextTrimming

  // ----- summaries

  /** The leading characters that are no whitespace. */
  function WordAt(s: string): (r: string)
    ensures r <= s
    ensures s != "" && !IsSpace(s[0]) ==> r != ""
  {
    if s == "" || IsSpace(s[0]) then "" else [s[0]] + WordAt(s[1..])
  }

  /** The words of a text: what stands between whitespace. */
  function Words(s: string): seq<string> {
    if s == "" then []
    else if IsSpace(s[0]) then Words(s[1..])
    else [WordAt(s)] + Words(s[|WordAt(s)|..])
  }

  lemma {:induction false} WordEnds(s: string)
    ensures var rest := s[|WordAt(s)|..]; rest == "" || IsSpace(rest[0])
    ensures forall i :: 0 <= i < |WordAt(s)| ==> !IsSpace(WordAt(s)[i])
  {
    hide IsSpace;
    if s != "" && !IsSpace(s[0]) {
      WordEnds(s[1..]);
      assert s[1..][|WordAt(s[1..])|..] == s[|WordAt(s)|..];
    }
  }

  lemma {:induction false} SqueezeWord(s: string)
    ensures Squeeze(s) == WordAt(s) + Squeeze(s[|WordAt(s)|..])
  {
    hide IsSpace;
    if s == "" || IsSpace(s[0]) {
      assert s[0..] == s;
    } else {
      SqueezeWord(s[1..]);
      assert s[1..][|WordAt(s[1..])|..] == s[|WordAt(s)|..];
      assert [s[0]] + (WordAt(s[1..]) + Squeeze(s[|WordAt(s)|..])) == WordAt(s) + Squeeze(s[|WordAt(s)|..]);
    }
  }

  lemma {:induction false} SqueezeSpaces(s: string)
    requires s != "" && IsSpace(s[0])
    ensures Squeeze(s) == " " + Squeeze(StripLeft(s)) && Words(s) == Words(StripLeft(s))
  {
    hide IsSpace;
    if |s| > 1 && IsSpace(s[1]) {
      SqueezeSpaces(s[1..]);
    } else {
      assert StripLeft(s) == s[1..];
    }
  }

  lemma SqueezedStart(s: string)
    ensures StripLeft(Squeeze(s)) == Squeeze(StripLeft(s))
  {
    hide IsSpace, Squeeze;
    StripLeftSpec(s);
    var t := StripLeft(s);
    FirstKept(t);
    BlankIsSpace();
    if s != "" && IsSpace(s[0]) {
      SqueezeSpaces(s);
      assert (" " + Squeeze(t))[1..] == Squeeze(t);
    }
  }

  lemma BlankIsSpace()
    ensures IsSpace(' ')
  {
  }

  /** A text that starts with no whitespace keeps its start. */
  lemma FirstKept(t: string)
    requires t == "" || !IsSpace(t[0])
    ensures StripLeft(Squeeze(t)) == Squeeze(t)
  {
    hide IsSpace;
  }

  lemma {:induction false} StripRightAfter(a: string, b: string)
    requires StripRight(b) != ""
    ensures StripRight(a + b) == a + StripRight(b)
  {
    hide IsSpace;
    var n := |b| - 1;
    if IsSpace(b[n]) {
      StripRightAfter(a, b[..n]);
      assert (a + b)[..|a + b| - 1] == a + b[..n];
    }
  }

  lemma {:induction false} SqueezedWords(s: string)
    requires s != "" && !IsSpace(s[0])
    ensures StripRight(Squeeze(s)) == Join(Words(s), ' ') != ""
    decreases |s|
  {
    hide IsSpace, Squeeze, StripRight, WordAt;
    var w := WordAt(s);
    var rest := s[|w|..];
    WordEnds(s);
    SqueezeWord(s);
    WordKept(w);
    if rest == "" {
      SqueezeNothing();
      assert Words(s) == [w] + [];
    } else {
      SqueezeSpaces(rest);
      StripLeftSpec(rest);
      var next := StripLeft(rest);
      if next == "" {
        SqueezeNothing();
        WordThenBlank(w);
        assert Words(s) == [w] + [];
      } else {
        SqueezedWords(next);
        assert Words(s) == [w] + Words(next);
        assert w + (" " + Squeeze(next)) == w + " " + Squeeze(next);
        StripRightAfter(w + " ", Squeeze(next));
        assert Words(next) != [] && Words(s)[1..] == Words(next);
      }
    }
  }

  lemma SqueezeNothing()
    ensures Squeeze("") == "" && Words("") == []
  {
  }

  lemma WordKept(w: string)
    requires w != "" && forall i :: 0 <= i < |w| ==> !IsSpace(w[i])
    ensures StripRight(w + "") == w
  {
    hide IsSpace;
    assert w + "" == w;
  }

  lemma WordThenBlank(w: string)
    requires w != "" && forall i :: 0 <= i < |w| ==> !IsSpace(w[i])
    ensures StripRight(w + (" " + "")) == w
  {
    BlankIsSpace();
    hide IsSpace;
    var s := w + (" " + "");
    assert s[..|s| - 1] == w && s[|s| - 1] == ' ';
  }

  /** A normalised entry differs in its summary only, which is at most 2000 characters of the summary's words
      joined by single blanks. */
  lemma NormalisedSummary(e: Entry)
    ensures var n := Normalized(e);
            && n.id == e.id && n.kind == e.kind && n.timestamp == e.timestamp && n.turn == e.turn && n.facts == e.facts
            && (n.summary.Some? <==> e.summary.Some?)
            && (e.summary.Some? ==>
                  var text := Join(Words(e.summary.value), ' ');
                  n.summary.value == if |text| <= 2000 then text else text[..2000])
  {
    hide IsSpace, Squeeze, StripRight, StripLeft, Words, Join;
    if e.summary.Some? {
      var s := e.summary.value;
      SqueezedStart(s);
      SqueezeNothing();
      StripLeftSpec(s);
      JoinNothing();
      WordsOfStart(s);
      if StripLeft(s) != "" {
        SqueezedWords(StripLeft(s));
      }
    }
  }

  lemma JoinNothing()
    ensures Join([], ' ') == "" && StripRight("") == ""
  {
  }

  lemma WordsOfStart(s: string)
    ensures Words(s) == Words(StripLeft(s))
  {
    hide IsSpace;
    if s != "" && IsSpace(s[0]) {
      SqueezeSpaces(s);
    }
  }

  // ----- fingerprints

  /** A fingerprint is taken of the kind, the summary and the other facts, and of nothing else. */
  lemma FingerprintIgnores(a: Entry, b: Entry)
    ensures FingerprintSource(a) == FingerprintSource(b) <==>
            a.kind == b.kind && a.summary == b.summary && a.facts == b.facts
  {
  }

  // ----- the serialised length

  function Hex(d: nat): char
    requires d < 16
  {
    if d < 10 then ('0' as int + d) as char else ('a' as int + (d - 10)) as char
  }

  /** A character inside a JSON text, as section 7 of RFC 8259 has it escaped. */
  function JsonEscape(c: char): string {
    if c == '"' then "\\\""
    else if c == '\\' then "\\\\"
    else if c == '\U{8}' then "\\b"
    else if c == '\U{C}' then "\\f"
    else if c == '\n' then "\\n"
    else if c == '\r' then "\\r"
    else if c == '\t' then "\\t"
    else if c < ' ' then "\\u00" + [Hex(c as int / 16), Hex(c as int % 16)]
    else [c]
  }

  function JsonText(s: string): string {
    if s == "" then "" else JsonEscape(s[0]) + JsonText(s[1..])
  }

  lemma {:induction false} JsonLength(s: string)
    ensures |JsonText(s)| == JsonChars(s)
  {
    if s != "" {
      JsonLength(s[1..]);
    }
  }

  /** The text is the entry's: its escaped summary inside what surrounds it. */
  ghost predicate EntryText(frame: Frame, k: Kept, text: string) {
    exists before: string, after: string ::
      text == before + JsonText(SummaryOf(k)) + after && |before| + |after| == frame(Blanked(k))
  }

  lemma {:induction false} TextsLength(frame: Frame, ks: seq<Kept>, texts: seq<string>)
    requires |texts| == |ks| && forall i :: 0 <= i < |ks| ==> EntryText(frame, ks[i], texts[i])
    ensures |Join(texts, ',')| == EntriesSize(frame, ks) + if ks == [] then 0 else |ks| - 1
  {
    hide Blanked, JsonChars, SummaryOf;
    if ks != [] {
      var before: string, after: string :|
        texts[0] == before + JsonText(SummaryOf(ks[0])) + after && |before| + |after| == frame(Blanked(ks[0]));
      JsonLength(SummaryOf(ks[0]));
      TextsLength(frame, ks[1..], texts[1..]);
    }
  }

  /** The size the loop compares with its limit is the length of the serialised list. */
  lemma SizeIsLength(frame: Frame, ks: seq<Kept>, texts: seq<string>)
    requires |texts| == |ks| && forall i :: 0 <= i < |ks| ==> EntryText(frame, ks[i], texts[i])
    ensures Size(frame, ks) == |"[" + Join(texts, ',') + "]"|
  {
    hide EntryText, EntriesSize, Join;
    TextsLength(frame, ks, texts);
  }

  // ----- one round

  /** The first low-value entry. */
  ghost predicate FirstLowAt(ks: seq<Kept>, i: nat) {
    i < |ks| && !High(ks[i]) && forall j :: 0 <= j < i ==> High(ks[j])
  }

  /** The first of the longest summaries. */
  ghost predicate LongestAt(ks: seq<Kept>, i: nat) {
    && i < |ks| && (forall j :: 0 <= j < |ks| ==> |SummaryOf(ks[j])| <= |SummaryOf(ks[i])|)
    && forall j :: 0 <= j < i ==> |SummaryOf(ks[j])| < |SummaryOf(ks[i])|
  }

  /** A round drops the first low-value entry, wherever it stands. */
  lemma RoundDropsLow(guard: nat, ks: seq<Kept>, i: nat)
    requires guard >= 160 && FirstLowAt(ks, i)
    ensures TrimStep(guard, ks) == ks[..i] + ks[i + 1..]
  {
    hide High, CutLongest, Longest, Len;
    var low := FirstLow(ks);
    assert low.Some? && low.value == i;
  }

  ghost predicate AllHighValue(ks: seq<Kept>) {
    forall j :: 0 <= j < |ks| ==> High(ks[j])
  }

  /** With none left and no summary longer than the guard it drops the first entry. */
  lemma RoundDropsHead(guard: nat, ks: seq<Kept>)
    requires ks != [] && guard >= 160 && AllHighValue(ks) && forall k :: k in ks ==> |SummaryOf(k)| <= guard
    ensures TrimStep(guard, ks) == ks[1..]
  {
    hide High, CutLongest, RemoveAt, SummaryOf;
    assert ks[Longest(ks)] in ks;
    assert FirstLow(ks).None?;
  }

  /** Otherwise it cuts the first longest summary to half of it, 160 characters at least, and an ellipsis. */
  lemma RoundCutsLongest(guard: nat, ks: seq<Kept>, i: nat)
    requires guard >= 160 && AllHighValue(ks) && LongestAt(ks, i) && |SummaryOf(ks[i])| > guard
    ensures var s := SummaryOf(ks[i]);
            var cut := s[..if |s| > 320 then |s| / 2 else 160] + "\U{2026}";
            TrimStep(guard, ks) == ks[i := Kept(ks[i].entry.(summary := Some(cut)), ks[i].fingerprint)]
  {
    hide High, RemoveAt, SummaryOf;
    assert FirstLow(ks).None?;
    assert Longest(ks) == i;
  }

  lemma {:induction false} LowConcat(a: seq<Kept>, b: seq<Kept>)
    ensures LowPart(a + b) == LowPart(a) + LowPart(b)
  {
    if a == [] {
      assert a + b == b;
    } else {
      LowConcat(a[1..], b);
      assert (a + b)[1..] == a[1..] + b;
    }
  }

  lemma {:induction false} NoLow(ks: seq<Kept>)
    requires forall j :: 0 <= j < |ks| ==> High(ks[j])
    ensures LowPart(ks) == []
  {
    if ks != [] {
      NoLow(ks[1..]);
    }
  }

  lemma RoundDropsOldest(guard: nat, ks: seq<Kept>)
    requires ks != [] && guard >= KEEP
    ensures LowPart(TrimStep(guard, ks)) == if LowPart(ks) == [] then [] else LowPart(ks)[1..]
  {
    hide High;
    var low := FirstLow(ks);
    if low.Some? {
      var i := low.value;
      SplitAt(ks, i);
      LowConcat(ks[..i], [ks[i]] + ks[i + 1..]);
      LowConcat([ks[i]], ks[i + 1..]);
      LowConcat(ks[..i], ks[i + 1..]);
      NoLow(ks[..i]);
      OneLow(ks[i]);
      assert LowPart(ks) == [ks[i]] + LowPart(ks[i + 1..]);
    } else {
      NoLow(ks);
      var next := TrimStep(guard, ks);
      forall j | 0 <= j < |next| ensures High(next[j]) {
        RoundKeepsHigh(guard, ks, j);
      }
      NoLow(next);
    }
  }

  lemma OneLow(k: Kept)
    requires !High(k)
    ensures LowPart([k]) == [k]
  {
    hide High;
  }

  lemma RoundKeepsHigh(guard: nat, ks: seq<Kept>, j: nat)
    requires ks != [] && guard >= KEEP && FirstLow(ks).None? && j < |TrimStep(guard, ks)|
    ensures High(TrimStep(guard, ks)[j])
  {
  }

  /** Trimming drops low-value entries oldest first: those that remain are the last ones. */
  lemma {:induction false} OldestFirst(frame: Frame, limit: nat, guard: nat, ks: seq<Kept>, n: nat)
    requires guard >= KEEP
    ensures exists m :: 0 <= m <= |LowPart(ks)| && LowPart(Rounds(frame, limit, guard, ks, n)) == LowPart(ks)[m..]
    decreases n
  {
    hide LowPart, TrimStep, Over;
    if n == 0 || !Over(frame, limit, ks) {
      assert LowPart(ks)[0..] == LowPart(ks);
    } else {
      OverIsSome(frame, limit, ks);
      RoundDropsOldest(guard, ks);
      var next := TrimStep(guard, ks);
      OldestFirst(frame, limit, guard, next, n - 1);
      var m :| 0 <= m <= |LowPart(next)|
            && LowPart(Rounds(frame, limit, guard, next, n - 1)) == LowPart(next)[m..];
      if LowPart(ks) != [] {
        assert LowPart(ks)[1..][m..] == LowPart(ks)[m + 1..];
      } else {
        assert LowPart(ks)[0..] == LowPart(next)[m..];
      }
    }
  }

  lemma OverIsSome(frame: Frame, limit: nat, ks: seq<Kept>)
    requires Over(frame, limit, ks)
    ensures ks != []
  {
  }

  lemma {:induction false} RoundsNext(frame: Frame, limit: nat, guard: nat, ks: seq<Kept>, n: nat)
    requires guard >= KEEP && Over(frame, limit, Rounds(frame, limit, guard, ks, n))
    ensures Rounds(frame, limit, guard, ks, n + 1) == TrimStep(guard, Rounds(frame, limit, guard, ks, n))
    decreases n
  {
    hide TrimStep, Over;
    OverIsSome(frame, limit, Rounds(frame, limit, guard, ks, n));
    if n > 0 && Over(frame, limit, ks) {
      OverIsSome(frame, limit, ks);
      RoundsNext(frame, limit, guard, TrimStep(guard, ks), n - 1);
    }
  }
}
