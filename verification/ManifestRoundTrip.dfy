/** Printing and parsing source manifests are inverse to each other. */
module ManifestRoundTrip {
  import opened Wrappers
  import opened Text
  import opened SourceManifest
  import Sorting

  // ----- canonical paths

  lemma {:induction false} PartsFixed(pieces: seq<string>)
    ensures forall p :: p in Parts(pieces) ==> Names(p) && p in pieces
    ensures (forall p :: p in pieces ==> Names(p)) ==> Parts(pieces) == pieces
    ensures Free(pieces, '/') ==> Free(Parts(pieces), '/')
  {
    if pieces != [] {
      PartsFixed(pieces[1..]);
      assert pieces == [pieces[0]] + pieces[1..];
    }
  }

  /** A path is accepted exactly when it is canonical, and then unchanged. */
  lemma PathAcceptedIff(raw: string)
    ensures NormalizeManifestPath(raw).Ok? <==> CanonicalPath(raw)
    ensures NormalizeManifestPath(raw).Ok? ==> NormalizeManifestPath(raw).value == raw
  {
    var pieces := Split(raw, '/');
    PartsFixed(pieces);
    JoinSplit(raw, '/');
    if raw == "." {
      SplitSingle(raw, '/');
    } else if NormalizeManifestPath(raw).Ok? {
      SplitJoin(Parts(pieces), '/');
    } else if raw != "" && raw[0] == '/' {
      assert pieces[0] == "";
    }
  }

  // ----- lines

  predicate NoBreaks(s: string) {
    forall c :: c in s ==> !IsLineBreak(c)
  }

  /** A text is split at its first line break, whichever it is. */
  lemma {:induction false} LinesSplit(line: string, c: char, rest: string)
    requires NoBreaks(line) && IsLineBreak(c)
    ensures Lines(line + [c] + rest) == [line] + Lines(rest)
  {
    hide IsLineBreak;
    var s := line + [c] + rest;
    if line == "" {
      assert s[1..] == rest;
    } else {
      assert line[0] in line;
      assert NoBreaks(line[1..]);
      LinesSplit(line[1..], c, rest);
      assert s[1..] == line[1..] + [c] + rest;
      assert [line[0]] + line[1..] == line;
    }
  }

  lemma LinesConcat(line: string, rest: string)
    requires NoBreaks(line)
    ensures Lines(line + "\n" + rest) == [line] + Lines(rest)
  {
    BreakIsBreak();
    hide IsLineBreak, NoBreaks;
    LinesSplit(line, '\n', rest);
  }

  /** The characters `splitlines` splits at. */
  lemma BreaksExact(c: char)
    ensures IsLineBreak(c) <==>
            c in {'\n', '\U{B}', '\U{C}', '\r', '\U{1C}', '\U{1D}', '\U{1E}', '\U{85}', '\U{2028}', '\U{2029}'}
  {
  }

  lemma BreakIsBreak()
    ensures IsLineBreak('\n')
  {
  }

  lemma {:induction false} LinesHaveNoBreaks(text: string)
    ensures forall line :: line in Lines(text) ==> NoBreaks(line)
  {
    hide IsLineBreak;
    if text != "" {
      LinesHaveNoBreaks(text[1..]);
      var rest := Lines(text[1..]);
      assert rest[0] in rest;
      forall line | line in Lines(text) ensures NoBreaks(line) {
        if line !in rest && line != "" {
          assert !IsLineBreak(text[0]) && line == [text[0]] + rest[0];
        }
      }
    }
  }

  function LinesOf(entries: seq<Entry>): (r: seq<string>)
    ensures |r| == |entries|
    ensures forall i :: 0 <= i < |entries| ==> r[i] == LineOf(entries[i])
  {
    seq(|entries|, i requires 0 <= i < |entries| => LineOf(entries[i]))
  }

  /** An entry that a manifest can hold. */
  predicate Proper(e: Entry) {
    IsDigest(e.sha256) && CanonicalPath(e.path) && NoBreaks(e.path)
  }

  ghost predicate DistinctPaths(entries: seq<Entry>) {
    forall i, j :: 0 <= i < j < |entries| ==> entries[i].path != entries[j].path
  }

  lemma LineHasNoBreaks(e: Entry)
    requires Proper(e)
    ensures NoBreaks(LineOf(e))
  {
    hide CanonicalPath;
    assert NoBreaks(e.sha256) by {
      forall c | c in e.sha256 ensures !IsLineBreak(c) {
        var i :| 0 <= i < 64 && e.sha256[i] == c;
      }
    }
    forall c | c in LineOf(e) ensures !IsLineBreak(c) {
      assert c in e.sha256 || c in "  " || c in e.path;
    }
  }

  lemma {:induction false} PrintedLines(entries: seq<Entry>)
    requires forall e :: e in entries ==> Proper(e)
    ensures Lines(Print(entries)) == LinesOf(entries) + [""]
  {
    hide Proper, NoBreaks, LineOf;
    if entries != [] {
      assert entries[0] in entries;
      LineHasNoBreaks(entries[0]);
      LinesConcat(LineOf(entries[0]), Print(entries[1..]));
      PrintedLines(entries[1..]);
      assert LinesOf(entries) == [LineOf(entries[0])] + LinesOf(entries[1..]);
    }
  }

  /** No two blanks in a row, and none at the end. */
  predicate Gapless(s: string) {
    forall i :: 0 <= i < |s| && s[i] == ' ' ==> i + 1 < |s| && s[i + 1] != ' '
  }

  lemma {:induction false} GapAfter(digest: string, path: string)
    requires Gapless(digest)
    ensures FindGap(digest + "  " + path) == Some(|digest|)
  {
    var line := digest + "  " + path;
    if digest != "" {
      assert line[0] == digest[0] && (|digest| > 1 ==> line[1] == digest[1]);
      assert forall i :: 0 <= i < |digest| - 1 ==> digest[1..][i] == digest[i + 1];
      GapAfter(digest[1..], path);
      assert line[1..] == digest[1..] + "  " + path;
    }
  }

  lemma DigestFacts(s: string)
    requires IsDigest(s)
    ensures ' ' !in s && Strip(s) == s && Lower(s) == s && s != ""
  {
    assert !IsSpace(s[0]) && !IsSpace(s[63]);
    StripFixed(s);
  }

  /** A printed line parses back to its entry. */
  lemma LineRoundTrip(e: Entry)
    requires Proper(e)
    ensures !Blank(LineOf(e)) && ParseLine(LineOf(e)) == Ok(e)
  {
    hide IsDigest, NormalizeManifestPath, CanonicalPath, NoBreaks;
    var line := LineOf(e);
    DigestFacts(e.sha256);
    GapAfter(e.sha256, e.path);
    PathAcceptedIff(e.path);
    assert line[..|e.sha256|] == e.sha256;
    assert line[|e.sha256| + 2..] == e.path;
    DigestStartsLine(e);
  }

  /** A line is split at its first two blanks in a row, into a digest of either case with whitespace around it
      and a canonical path. */
  lemma LineExact(digest: string, path: string)
    requires Gapless(digest)
    ensures ParseLine(digest + "  " + path) ==
            if IsDigest(Lower(Strip(digest))) && CanonicalPath(path) then Ok(Entry(Lower(Strip(digest)), path))
            else Refused
  {
    hide IsDigest, NormalizeManifestPath, CanonicalPath, Strip, Lower;
    var line := digest + "  " + path;
    GapAfter(digest, path);
    PathAcceptedIff(path);
    assert line[..|digest|] == digest && line[|digest| + 2..] == path;
  }

  lemma DigestStartsLine(e: Entry)
    requires IsDigest(e.sha256)
    ensures !Blank(LineOf(e))
  {
    var line := LineOf(e);
    assert line[0] == e.sha256[0] && !IsSpace(line[0]);
    StripFixed(line);
    StripRightSpec(line);
  }

  // ----- collecting

  lemma {:induction false} CollectPrinted(entries: seq<Entry>)
    requires forall e :: e in entries ==> Proper(e)
    requires DistinctPaths(entries)
    ensures Collect(LinesOf(entries)) == Ok(entries)
  {
    hide Proper, LineOf, Blank, ParseLine;
    if entries != [] {
      var n := |entries| - 1;
      var init, last := entries[..n], entries[n];
      assert last in entries && forall e :: e in init ==> e in entries;
      CollectPrinted(init);
      LineRoundTrip(last);
      assert LinesOf(entries)[..n] == LinesOf(init);
      assert entries == init + [last];
    }
  }

  lemma CollectEmptyEnd(lines: seq<string>)
    ensures Collect(lines + [""]) == Collect(lines)
  {
    assert (lines + [""])[..|lines|] == lines;
    assert Blank("");
  }

  lemma PathOrder()
    ensures Sorting.StrictWeak(PathLess)
  {
    forall a, b ensures PathLess(a, b) ==> !PathLess(b, a) {
      StrLessTotal(a.path, b.path);
    }
    forall a, b, c | !PathLess(a, b) && !PathLess(b, c) ensures !PathLess(a, c) {
      StrNotLess(a.path, b.path, c.path);
    }
  }

  /** Parsing a printed manifest returns its entries in path order. */
  lemma PrintThenParse(entries: seq<Entry>)
    requires entries != [] && DistinctPaths(entries)
    requires forall e :: e in entries ==> Proper(e)
    ensures Parse(Print(entries)) == Ok(Sorting.SortBy(PathLess, entries))
    ensures Sorting.SortedBy(PathLess, Sorting.SortBy(PathLess, entries))
    ensures multiset(Sorting.SortBy(PathLess, entries)) == multiset(entries)
  {
    hide Proper, Lines, Print;
    PrintedLines(entries);
    CollectPrinted(entries);
    CollectEmptyEnd(LinesOf(entries));
    PathOrder();
    Sorting.SortBySpec(PathLess, entries);
  }

  lemma ParsedLineIsProper(line: string)
    requires NoBreaks(line) && ParseLine(line).Ok?
    ensures Proper(ParseLine(line).value)
  {
    hide IsDigest, NormalizeManifestPath, CanonicalPath, Strip, IsLineBreak;
    var gap := FindGap(line).value;
    PathAcceptedIff(line[gap + 2..]);
    forall c | c in line[gap + 2..] ensures c in line {
    }
  }

  lemma {:induction false} CollectedAreProper(lines: seq<string>)
    requires forall line :: line in lines ==> NoBreaks(line)
    requires Collect(lines).Ok?
    ensures forall e :: e in Collect(lines).value ==> Proper(e)
    ensures DistinctPaths(Collect(lines).value)
  {
    hide ParseLine, Blank, Proper, NoBreaks;
    if lines != [] {
      var init, line := lines[..|lines| - 1], lines[|lines| - 1];
      assert line in lines && forall l :: l in init ==> l in lines;
      CollectedAreProper(init);
      var before := Collect(init).value;
      if !Blank(line) {
        ParsedLineIsProper(line);
        var e := ParseLine(line).value;
        forall i | 0 <= i < |before| ensures before[i].path != e.path {
          assert before[i] in before;
        }
      }
    }
  }

  lemma DistinctSorted(entries: seq<Entry>, sorted: seq<Entry>)
    requires DistinctPaths(entries) && multiset(sorted) == multiset(entries)
    ensures DistinctPaths(sorted)
  {
    Sorting.SameElements(sorted, entries);
    forall i, j | 0 <= i < j < |sorted| ensures sorted[i].path != sorted[j].path {
      assert sorted[i] in entries && sorted[j] in entries;
      if sorted[i] == sorted[j] {
        Sorting.CountsTwice(sorted, i, j);
        OnceInDistinct(entries, sorted[i]);
      }
    }
  }

  lemma {:induction false} OnceInDistinct(s: seq<Entry>, x: Entry)
    requires DistinctPaths(s)
    ensures multiset(s)[x] <= 1
  {
    if s != [] {
      OnceInDistinct(s[1..], x);
      assert s == [s[0]] + s[1..];
      if x == s[0] {
        assert x !in s[1..];
      }
    }
  }

  /** Whatever text is accepted, printing its entries and parsing again gives the same entries: the
      printed form is a normal form. */
  lemma ParseThenPrint(text: string)
    requires Parse(text).Ok?
    ensures Parse(Print(Parse(text).value)) == Parse(text)
    ensures forall e :: e in Parse(text).value ==> Proper(e)
    ensures DistinctPaths(Parse(text).value)
  {
    hide Proper, Lines, Print, NoBreaks;
    var entries := Collect(Lines(text)).value;
    var sorted := Parse(text).value;
    LinesHaveNoBreaks(text);
    CollectedAreProper(Lines(text));
    PathOrder();
    Sorting.SortBySpec(PathLess, entries);
    DistinctSorted(entries, sorted);
    PrintThenParse(sorted);
    Sorting.SortByFixed(PathLess, sorted);
  }

  /** The order in which entries are printed does not matter to what is parsed. */
  lemma PrintOrderIrrelevant(a: seq<Entry>, b: seq<Entry>)
    requires a != [] && multiset(a) == multiset(b) && DistinctPaths(a)
    requires forall e :: e in a ==> Proper(e)
    ensures Parse(Print(a)) == Parse(Print(b))
  {
    hide Proper, Parse, Print;
    Sorting.SameElements(a, b);
    DistinctSorted(a, b);
    PrintThenParse(a);
    PrintThenParse(b);
    var sa, sb := Sorting.SortBy(PathLess, a), Sorting.SortBy(PathLess, b);
    DistinctSorted(a, sa);
    DistinctSorted(b, sb);
    SortedAscends(sa);
    SortedAscends(sb);
    forall x, y ensures PathLess(x, y) ==> !PathLess(y, x) {
      StrLessTotal(x.path, y.path);
    }
    Sorting.SortedUnique(PathLess, sa, sb);
  }

  lemma SortedAscends(s: seq<Entry>)
    requires Sorting.SortedBy(PathLess, s) && DistinctPaths(s)
    ensures Sorting.Ascending(PathLess, s)
  {
    forall i, j | 0 <= i < j < |s| ensures PathLess(s[i], s[j]) {
      StrLessTotal(s[i].path, s[j].path);
    }
  }
}
