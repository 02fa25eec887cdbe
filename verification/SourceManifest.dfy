/** The source manifest: lines of a digest, two spaces and a canonical relative path. */
module SourceManifest {
  import opened Wrappers
  import opened Text
  import Sorting

  datatype Entry = Entry(sha256: string, path: string)

  // ----- paths

  predicate Names(part: string) {
    part != "" && part != "."
  }

  /** The parts of a relative `PurePosixPath`. */
  function Parts(pieces: seq<string>): seq<string> {
    if pieces == [] then []
    else if Names(pieces[0]) then [pieces[0]] + Parts(pieces[1..])
    else Parts(pieces[1..])
  }

  function AsPosix(parts: seq<string>): string {
    if parts == [] then "." else Join(parts, '/')
  }

  /** `normalize_manifest_path`. */
  function NormalizeManifestPath(raw: string): Result<string> {
    if '\\' in raw || raw == "" || raw[0] == '/' then Refused
    else
      var parts := Parts(Split(raw, '/'));
      if ".." in parts || AsPosix(parts) != raw then Refused else Ok(raw)
  }

  /** The root "." itself, or pieces between slashes that are neither empty nor "." nor "..". */
  predicate CanonicalPath(raw: string) {
    && '\\' !in raw
    && (raw == "." || forall piece :: piece in Split(raw, '/') ==> piece != "" && piece != "." && piece != "..")
  }

  // ----- lines

  predicate IsLineBreak(c: char) {
    '\n' <= c <= '\r' || '\U{1C}' <= c <= '\U{1E}' || c == '\U{85}' || c == '\U{2028}' || c == '\U{2029}'
  }

  /** `splitlines`, up to empty lines, which the parser skips. */
  function Lines(text: string): (r: seq<string>)
    ensures |r| >= 1
  {
    if text == "" then [""]
    else
      var rest := Lines(text[1..]);
      if IsLineBreak(text[0]) then [""] + rest else [[text[0]] + rest[0]] + rest[1..]
  }

  /** Where the first two adjacent spaces start. */
  function FindGap(line: string): (r: Option<nat>)
    ensures r.Some? ==> r.value + 1 < |line|
  {
    if |line| < 2 then None
    else if line[0] == ' ' && line[1] == ' ' then Some(0)
    else
      var rest := FindGap(line[1..]);
      if rest.Some? then Some(rest.value + 1) else None
  }

  predicate IsDigest(s: string) {
    |s| == 64 && forall i :: 0 <= i < 64 ==> '0' <= s[i] <= '9' || 'a' <= s[i] <= 'f'
  }

  /** One line that is not blank. */
  function ParseLine(line: string): Result<Entry> {
    match FindGap(line)
    case None => Refused
    case Some(gap) =>
      var digest := Lower(Strip(line[..gap]));
      if !IsDigest(digest) then Refused
      else
        var path :- NormalizeManifestPath(line[gap + 2..]);
        Ok(Entry(digest, path))
  }

  predicate PathSeen(entries: seq<Entry>, path: string) {
    exists e :: e in entries && e.path == path
  }

  /** The entries of the lines in their order, refused at a bad line or a repeated path. */
  function Collect(lines: seq<string>): Result<seq<Entry>> {
    if lines == [] then Ok([])
    else
      var before :- Collect(lines[..|lines| - 1]);
      var line := lines[|lines| - 1];
      if Blank(line) then Ok(before)
      else
        var entry :- ParseLine(line);
        if PathSeen(before, entry.path) then Refused else Ok(before + [entry])
  }

  predicate PathLess(a: Entry, b: Entry) {
    StrLess(a.path, b.path)
  }

  function Parse(text: string): Result<seq<Entry>> {
    var entries :- Collect(Lines(text));
    if entries == [] then Refused else Ok(Sorting.SortBy(PathLess, entries))
  }

  /** `parse_source_manifest`: entries and a set of the paths seen grow line by line. */
  method ParseSourceManifest(text: string) returns (result: Result<seq<Entry>>)
    ensures result == Parse(text)
  {
    hide ParseLine, Blank, Lines;
    var lines := Lines(text);
    var entries: seq<Entry>, seen: set<string> := [], {};
    for i := 0 to |lines|
      invariant Collect(lines[..i]) == Ok(entries)
      invariant seen == set e | e in entries :: e.path
    {
      assert lines[..i + 1][..i] == lines[..i];
      ghost var soFar := Collect(lines[..i + 1]);
      if Blank(lines[i]) {
        continue;
      }
      var parsed := ParseLine(lines[i]);
      if parsed.Refused? {
        CollectRefuses(lines, i + 1);
        return Refused;
      }
      if parsed.value.path in seen {
        CollectRefuses(lines, i + 1);
        return Refused;
      }
      seen := seen + {parsed.value.path};
      entries := entries + [parsed.value];
    }
    assert lines[..|lines|] == lines;
    if entries == [] {
      return Refused;
    }
    result := Ok(Sorting.SortBy(PathLess, entries));
  }

  lemma {:induction false} CollectRefuses(lines: seq<string>, n: nat)
    requires n <= |lines| && Collect(lines[..n]).Refused?
    ensures Collect(lines).Refused?
    decreases |lines|
  {
    hide ParseLine, Blank;
    if n == |lines| {
      assert lines[..n] == lines;
    } else {
      var init := lines[..|lines| - 1];
      assert init[..n] == lines[..n];
      CollectRefuses(init, n);
    }
  }

  function LineOf(e: Entry): string {
    e.sha256 + "  " + e.path
  }

  /** `manifest_bytes`. */
  function Print(entries: seq<Entry>): string {
    if entries == [] then "" else LineOf(entries[0]) + "\n" + Print(entries[1..])
  }
}
