/** `_normalize_path` and `_path_within` on the strings themselves, over the components of
    `posixpath.normpath`. */
module Paths {
  import opened Wrappers
  import opened Text

  const SEP := '/'

  // ----- posixpath.normpath

  function Slashes(n: nat): (r: string)
    ensures |r| == n
    ensures forall i :: 0 <= i < n ==> r[i] == SEP
  {
    seq(n, _ => SEP)
  }

  /** Two leading slashes are kept, one or three and more become one. */
  function LeadingSlashes(s: string): (n: nat)
    ensures n <= 2 && n <= |s|
    ensures n > 0 <==> "/" <= s
  {
    if "//" <= s && !("///" <= s) then 2 else if "/" <= s then 1 else 0
  }

  function PushComponent(rooted: bool, acc: seq<string>, comp: string): seq<string> {
    if comp == "" || comp == "." then acc
    else if comp != ".." || (!rooted && acc == []) || (acc != [] && acc[|acc| - 1] == "..") then acc + [comp]
    else if acc != [] then acc[..|acc| - 1]
    else acc
  }

  function Collapse(rooted: bool, acc: seq<string>, comps: seq<string>): seq<string>
    decreases |comps|
  {
    if comps == [] then acc else Collapse(rooted, PushComponent(rooted, acc, comps[0]), comps[1..])
  }

  function NormPath(s: string): string {
    if s == "" then "."
    else
      var n := LeadingSlashes(s);
      var p := Slashes(n) + Join(Collapse(n > 0, [], Split(s, SEP)), SEP);
      if p == "" then "." else p
  }

  // ----- _normalize_path

  predicate HasDrive(text: string) {
    |text| >= 2 && text[1] == ':'
  }

  /** Refuse traversal, put the drive back, cut trailing slashes. */
  function Assemble(drive: string, n: string): Result<string> {
    if "../" <= n || n == ".." then Refused
    else
      var full := if drive != "" then drive + (if "/" <= n then n else "/" + n) else n;
      var r := RStripChar(full, SEP);
      Ok(if r == "" then "/" else r)
  }

  function CollapseDot(n: string): string {
    if n == "." then "" else n
  }

  function NormalizeText(text: string): Result<string> {
    if text == "" then Ok("")
    else if HasDrive(text) then Assemble(Lower(text[..2]), CollapseDot(NormPath(text[2..])))
    else Assemble("", CollapseDot(NormPath(text)))
  }

  function Normalize(value: string): Result<string> {
    NormalizeText(ReplaceChar(Strip(value), '\\', SEP))
  }

  /** The comparison `_path_within` makes once both sides are normalised. */
  predicate Within(path: string, prefix: string) {
    if prefix == "/" then "/" <= path else path == prefix || prefix + "/" <= path
  }

  // ----- what normalisation yields

  /** A path component that names something: not empty, not "." and not "..". */
  predicate Plain(c: string) {
    c != "" && c != "." && c != ".." && SEP !in c
  }

  predicate AllPlain(comps: seq<string>) {
    forall c :: c in comps ==> Plain(c)
  }

  /** What `Collapse` keeps: ".." only as a leading run of a relative path, otherwise plain. */
  ghost predicate Collapsed(rooted: bool, comps: seq<string>) {
    forall i :: 0 <= i < |comps| ==>
      Plain(comps[i]) || (!rooted && comps[i] == ".." && forall j :: 0 <= j < i ==> comps[j] == "..")
  }

  lemma {:induction false} CollapseKeepsShape(rooted: bool, acc: seq<string>, comps: seq<string>)
    requires Collapsed(rooted, acc)
    requires Free(comps, SEP)
    ensures Collapsed(rooted, Collapse(rooted, acc, comps))
    decreases |comps|
  {
    if comps != [] {
      var next := PushComponent(rooted, acc, comps[0]);
      assert comps[0] in comps;
      assert Collapsed(rooted, next) by {
        if next == acc + [comps[0]] && comps[0] == ".." && acc != [] {
          assert acc[|acc| - 1] == "..";
          assert !Plain(acc[|acc| - 1]);
        }
      }
      CollapseKeepsShape(rooted, next, comps[1..]);
    }
  }

  lemma {:induction false} CollapseFree(rooted: bool, acc: seq<string>, comps: seq<string>, c: char)
    requires Free(acc, c) && Free(comps, c)
    ensures Free(Collapse(rooted, acc, comps), c)
    decreases |comps|
  {
    if comps != [] {
      assert comps[0] in comps;
      CollapseFree(rooted, PushComponent(rooted, acc, comps[0]), comps[1..], c);
    }
  }

  /** Collapsing leaves plain components alone, however many are already kept. */
  lemma {:induction false} CollapsePlain(rooted: bool, acc: seq<string>, comps: seq<string>)
    requires AllPlain(comps)
    ensures Collapse(rooted, acc, comps) == acc + comps
    decreases |comps|
  {
    if comps != [] {
      assert comps[0] in comps;
      CollapsePlain(rooted, acc + [comps[0]], comps[1..]);
      assert acc + [comps[0]] + comps[1..] == acc + comps;
    }
  }

  lemma {:induction false} JoinEnds(parts: seq<string>)
    requires parts != [] && AllPlain(parts)
    ensures var j := Join(parts, SEP);
            j != "" && j[0] != SEP && j[|j| - 1] != SEP && |j| >= |parts[0]| && j[..|parts[0]|] == parts[0]
  {
    assert parts[0] in parts;
    if |parts| > 1 {
      JoinEnds(parts[1..]);
    }
  }

  /** `normpath` fixes every path of at most two leading slashes and plain components. */
  lemma NormPathFixed(n: nat, comps: seq<string>)
    requires n <= 2 && comps != [] && AllPlain(comps)
    ensures NormPath(Slashes(n) + Join(comps, SEP)) == Slashes(n) + Join(comps, SEP)
  {
    var j := Join(comps, SEP);
    var s := Slashes(n) + j;
    JoinEnds(comps);
    assert LeadingSlashes(s) == n by {
      assert s[n] == j[0];
      if n == 1 { assert s[0] == SEP; }
      if n == 2 { assert s[..2] == "//"; }
    }
    SplitJoin(comps, SEP);
    CollapsePlain(n > 0, [], comps);
    assert [] + comps == comps;
    if n == 1 {
      SplitConcat("", j, SEP);
      assert s == "" + [SEP] + j;
      assert Split(s, SEP) == [""] + comps;
      assert Split(s, SEP)[1..] == comps;
    } else if n == 2 {
      SplitConcat("", j, SEP);
      SplitConcat("", [SEP] + j, SEP);
      assert "" + [SEP] + j == [SEP] + j;
      assert s == "" + [SEP] + ([SEP] + j);
      assert Split([SEP] + j, SEP) == [""] + comps;
      assert Split(s, SEP) == [""] + ([""] + comps);
      assert Split(s, SEP)[1..] == [""] + comps;
      assert ([""] + comps)[1..] == comps;
      assert Collapse(true, [], [""] + comps) == Collapse(true, [], comps);
    } else {
      assert s == j;
    }
  }

  // ----- lengths

  ghost function Weight(parts: seq<string>): nat {
    if parts == [] then 0 else |parts[0]| + 1 + Weight(parts[1..])
  }

  lemma {:induction false} WeightConcat(a: seq<string>, b: seq<string>)
    ensures Weight(a + b) == Weight(a) + Weight(b)
  {
    if a == [] {
      assert a + b == b;
    } else {
      WeightConcat(a[1..], b);
      assert (a + b)[1..] == a[1..] + b;
    }
  }

  lemma {:induction false} JoinLength(parts: seq<string>)
    ensures |Join(parts, SEP)| == if parts == [] then 0 else Weight(parts) - 1
  {
    if |parts| > 1 {
      JoinLength(parts[1..]);
    }
  }

  lemma {:induction false} CollapseWeight(rooted: bool, acc: seq<string>, comps: seq<string>)
    ensures Weight(Collapse(rooted, acc, comps)) <= Weight(acc) + Weight(comps)
    decreases |comps|
  {
    if comps != [] {
      var next := PushComponent(rooted, acc, comps[0]);
      CollapseWeight(rooted, next, comps[1..]);
      WeightConcat(acc, [comps[0]]);
      if acc != [] {
        WeightConcat(acc[..|acc| - 1], [acc[|acc| - 1]]);
        assert acc[..|acc| - 1] + [acc[|acc| - 1]] == acc;
      }
    }
  }

  /** Splitting a path sets its leading slashes apart as empty components. */
  lemma SplitLeading(s: string)
    ensures Split(s, SEP)[..LeadingSlashes(s)] == seq(LeadingSlashes(s), _ => "")
    ensures |Split(s, SEP)| > LeadingSlashes(s)
    ensures Collapse(LeadingSlashes(s) > 0, [], Split(s, SEP))
         == Collapse(LeadingSlashes(s) > 0, [], Split(s, SEP)[LeadingSlashes(s)..])
    ensures Weight(Split(s, SEP)[LeadingSlashes(s)..]) == |s| + 1 - LeadingSlashes(s)
  {
    var n := LeadingSlashes(s);
    var parts := Split(s, SEP);
    JoinSplit(s, SEP);
    JoinLength(parts);
    assert Weight(parts) == |s| + 1;
    if n >= 1 {
      assert s[0] == SEP && parts == [""] + Split(s[1..], SEP);
      assert parts[1..] == Split(s[1..], SEP);
    }
    if n == 2 {
      assert s[1] == SEP && parts[1..] == [""] + Split(s[1..][1..], SEP);
      assert parts[1..][1..] == parts[2..] == Split(s[1..][1..], SEP);
      assert Collapse(true, [], parts[1..]) == Collapse(true, [], parts[2..]);
    }
  }

  /** The kept components of `normpath`, and that it never lengthens a path. */
  lemma NormPathShape(s: string) returns (comps: seq<string>)
    requires s != ""
    ensures var n := LeadingSlashes(s);
            && Collapsed(n > 0, comps)
            && NormPath(s) == (if n == 0 && comps == [] then "." else Slashes(n) + Join(comps, SEP))
            && |NormPath(s)| <= |s|
    ensures '\\' !in s ==> Free(comps, '\\')
    ensures comps != [] ==> Join(comps, SEP) != ""
  {
    var n := LeadingSlashes(s);
    var parts := Split(s, SEP);
    comps := Collapse(n > 0, [], parts);
    CollapseKeepsShape(n > 0, [], parts);
    if '\\' !in s {
      SplitFree(s, SEP, '\\');
      CollapseFree(n > 0, [], parts, '\\');
    }
    SplitLeading(s);
    CollapseWeight(n > 0, [], parts[n..]);
    JoinLength(comps);
    if comps != [] {
      assert Plain(comps[0]) || comps[0] == "..";
      assert Join(comps, SEP) != "";
    }
  }

  /** Once the traversal check has passed, every kept component is plain. */
  lemma NoTraversalLeft(rooted: bool, comps: seq<string>)
    requires Collapsed(rooted, comps)
    requires !rooted ==> !("../" <= Join(comps, SEP)) && Join(comps, SEP) != ".."
    ensures AllPlain(comps)
  {
    assert |comps| > 1 ==> Join(comps, SEP) == comps[0] + [SEP] + Join(comps[1..], SEP);
    assert comps == [] || Plain(comps[0]);
  }

  // ----- the normal form

  /** Drive, number of slashes after it and components of a normal form. */
  ghost predicate Shape(drive: string, n: nat, comps: seq<string>) {
    && n <= 2
    && (drive == "" || (|drive| == 2 && drive[1] == ':' && Lower(drive) == drive && !IsSpace(drive[0]) && n >= 1))
    && '\\' !in drive
    && AllPlain(comps) && Free(comps, '\\')
  }

  ghost function Render(drive: string, n: nat, comps: seq<string>): string {
    if comps != [] then drive + Slashes(n) + Join(comps, SEP) else if drive != "" then drive else "/"
  }

  lemma LowerIdempotent(s: string)
    ensures Lower(Lower(s)) == Lower(s)
  {
  }

  lemma StripTrailing(base: string, n: nat)
    requires base == "" || base[|base| - 1] != SEP
    ensures RStripChar(base + Slashes(n), SEP) == base
  {
    var full := base + Slashes(n);
    var r := RStripChar(full, SEP);
    assert base != "" ==> full[|base| - 1] == base[|base| - 1];
    assert forall i :: |base| <= i < |full| ==> full[i] == SEP;
  }

  /** What the traversal check leaves of the part after the drive. */
  lemma BodyShape(body: string) returns (n: nat, comps: seq<string>)
    requires var c := CollapseDot(NormPath(body)); !("../" <= c) && c != ".."
    ensures n <= 2 && (n > 0 <==> "/" <= body)
    ensures AllPlain(comps)
    ensures '\\' !in body ==> Free(comps, '\\')
    ensures CollapseDot(NormPath(body)) == Slashes(n) + Join(comps, SEP)
    ensures body != "" ==> n + |Join(comps, SEP)| <= |body|
  {
    if body == "" {
      n, comps := 0, [];
    } else {
      n := LeadingSlashes(body);
      comps := NormPathShape(body);
      if comps == [] {
        assert Slashes(n) + Join(comps, SEP) == Slashes(n);
      } else {
        DotAlone(n, comps);
        assert n == 0 ==> Slashes(n) + Join(comps, SEP) == Join(comps, SEP);
        NoTraversalLeft(n > 0, comps);
      }
    }
  }

  /** Kept components never join to "." alone. */
  lemma DotAlone(n: nat, comps: seq<string>)
    requires Collapsed(n > 0, comps) && comps != []
    ensures Slashes(n) + Join(comps, SEP) != "."
  {
    var j := Join(comps, SEP);
    assert Plain(comps[0]) || comps[0] == "..";
    assert |comps| == 1 ==> j == comps[0];
    assert |comps| > 1 ==> |j| >= 2;
    assert n > 0 ==> (Slashes(n) + j)[0] == SEP;
    assert n == 0 ==> Slashes(n) + j == j;
  }

  /** The rendering is what remains after trailing slashes are cut. */
  lemma RenderIsTrimmed(drive: string, n: nat, comps: seq<string>)
    requires Shape(drive, n, comps)
    ensures var r := RStripChar(drive + (Slashes(n) + Join(comps, SEP)), SEP);
            (if r == "" then "/" else r) == Render(drive, n, comps)
  {
    var j := Join(comps, SEP);
    if comps == [] {
      assert Slashes(n) + j == Slashes(n);
      StripTrailing(drive, n);
    } else {
      JoinEnds(comps);
      var full := drive + (Slashes(n) + j);
      assert full == drive + Slashes(n) + j;
      assert full[|full| - 1] == j[|j| - 1];
      StripTrailing(full, 0);
      assert full + Slashes(0) == full;
    }
  }

  lemma AssembleShape(drive: string, n: nat, comps: seq<string>)
    requires Assemble(drive, Slashes(n) + Join(comps, SEP)).Ok?
    requires "/" <= Slashes(n) + Join(comps, SEP) <==> n > 0
    requires var m := if drive != "" && n == 0 then 1 else n; Shape(drive, m, comps)
    ensures var m := if drive != "" && n == 0 then 1 else n;
            Assemble(drive, Slashes(n) + Join(comps, SEP)).value == Render(drive, m, comps)
  {
    hide RStripChar, Render, Shape;
    var m := if drive != "" && n == 0 then 1 else n;
    var j := Join(comps, SEP);
    assert m != n ==> "/" + (Slashes(0) + j) == Slashes(1) + j;
    assert drive == "" ==> drive + (Slashes(n) + j) == Slashes(n) + j;
    RenderIsTrimmed(drive, m, comps);
  }

  lemma AssembleBody(drive: string, body: string) returns (n: nat, comps: seq<string>)
    requires Assemble(drive, CollapseDot(NormPath(body))).Ok?
    requires '\\' !in body
    requires drive == "" ||
             (|drive| == 2 && drive[1] == ':' && Lower(drive) == drive && !IsSpace(drive[0]) && '\\' !in drive)
    ensures Shape(drive, n, comps)
    ensures Assemble(drive, CollapseDot(NormPath(body))).value == Render(drive, n, comps)
    ensures body != "" && (drive == "" || "/" <= body) ==> n + |Join(comps, SEP)| <= |body|
  {
    n, comps := BodyShape(body);
    SlashCount(n, comps);
    var m := if drive != "" && n == 0 then 1 else n;
    AssembleShape(drive, n, comps);
    n := m;
  }

  lemma SlashCount(n: nat, comps: seq<string>)
    requires AllPlain(comps)
    ensures "/" <= Slashes(n) + Join(comps, SEP) <==> n > 0
  {
    var s := Slashes(n) + Join(comps, SEP);
    if comps != [] {
      JoinEnds(comps);
      assert s[n] == Join(comps, SEP)[0];
    }
  }

  lemma TextShape(text: string) returns (drive: string, n: nat, comps: seq<string>)
    requires '\\' !in text && text != "" && !IsSpace(text[0]) && NormalizeText(text).Ok?
    ensures Shape(drive, n, comps)
    ensures NormalizeText(text).value == Render(drive, n, comps)
  {
    hide NormPath, Assemble, Split, Render, Shape;
    if HasDrive(text) {
      drive := Lower(text[..2]);
      LowerIdempotent(text[..2]);
      n, comps := AssembleBody(drive, text[2..]);
    } else {
      drive := "";
      n, comps := AssembleBody(drive, text);
    }
  }

  /** Every accepted nonempty path is rendered from plain components: no "." and no ".." survives. */
  lemma NormalizeShape(value: string) returns (drive: string, n: nat, comps: seq<string>)
    requires Normalize(value).Ok? && Normalize(value).value != ""
    ensures Shape(drive, n, comps)
    ensures Normalize(value).value == Render(drive, n, comps)
  {
    hide NormPath, Assemble, Render, Shape, Strip;
    StripFixed(value);
    drive, n, comps := TextShape(ReplaceChar(Strip(value), '\\', SEP));
  }

  // ----- when normalising again changes nothing

  /** A drive-like start is lower case and ends the path or is followed by a slash. */
  predicate DriveSettled(y: string) {
    HasDrive(y) ==> LowerChar(y[0]) == y[0] && (|y| == 2 || y[2] == SEP)
  }

  lemma {:induction false} JoinFree(parts: seq<string>, c: char)
    requires Free(parts, c) && c != SEP
    ensures c !in Join(parts, SEP)
  {
    if parts != [] {
      assert parts[0] in parts;
      if |parts| > 1 {
        JoinFree(parts[1..], c);
      }
    }
  }

  lemma PlainHead(s: string, k: nat)
    requires k <= |s| && Plain(s[..k]) && (k < |s| ==> s[k] == SEP)
    ensures !("../" <= s) && s != ".." && s != "."
  {
    var head := s[..k];
    assert forall i :: 0 <= i < k ==> s[i] == head[i] && s[i] in head;
    assert |head| == 2 && head[0] == '.' && head[1] == '.' ==> head == "..";
    assert s == "." ==> head == s;
    if |s| >= 3 {
      assert "../" <= s <==> s[0] == '.' && s[1] == '.' && s[2] == SEP;
    }
  }

  /** Plain components never read as an attempt to leave the root. */
  lemma NotTraversal(n: nat, comps: seq<string>)
    requires AllPlain(comps)
    ensures var s := Slashes(n) + Join(comps, SEP); !("../" <= s) && s != ".." && (comps != [] ==> s != ".")
  {
    var s := Slashes(n) + Join(comps, SEP);
    if n > 0 {
      assert s[0] == SEP;
    } else if comps != [] {
      assert comps[0] in comps;
      JoinEnds(comps);
      assert s == Join(comps, SEP);
      PlainHead(s, |comps[0]|);
    }
  }

  lemma AssembleKeeps(drive: string, s: string)
    requires !("../" <= s) && s != ".." && (drive == "" || "/" <= s)
    requires s != "" && s[|s| - 1] != SEP
    ensures Assemble(drive, s) == Ok(drive + s)
  {
    assert drive == "" ==> drive + s == s;
    assert (drive + s)[|drive + s| - 1] == s[|s| - 1];
    StripTrailing(drive + s, 0);
    assert drive + s + Slashes(0) == drive + s;
  }

  lemma FixedBody(drive: string, n: nat, comps: seq<string>)
    requires n <= 2 && comps != [] && AllPlain(comps) && (drive == "" || n > 0)
    ensures var s := Slashes(n) + Join(comps, SEP);
            Assemble(drive, CollapseDot(NormPath(s))) == Ok(drive + s)
  {
    hide Split, Collapse, NormPath, Assemble;
    var s := Slashes(n) + Join(comps, SEP);
    NormPathFixed(n, comps);
    NotTraversal(n, comps);
    JoinEnds(comps);
    SlashCount(n, comps);
    assert s[|s| - 1] == Join(comps, SEP)[|Join(comps, SEP)| - 1];
    AssembleKeeps(drive, s);
  }

  lemma DriveAlone(drive: string)
    requires |drive| == 2 && drive[1] == ':'
    ensures Assemble(drive, CollapseDot(NormPath(""))) == Ok(drive)
  {
    StripTrailing(drive, 1);
    assert drive + ("/" + "") == drive + Slashes(1);
  }

  /** A rendering that happens to start like a drive splits after it. */
  lemma AccidentalDrive(n: nat, comps: seq<string>)
    requires n <= 2 && AllPlain(comps) && comps != []
    requires var y := Slashes(n) + Join(comps, SEP); |y| > 2 && y[1] == ':' && y[2] == SEP
    ensures |comps| > 1 && (Slashes(n) + Join(comps, SEP))[2..] == Slashes(1) + Join(comps[1..], SEP)
  {
    var c0, j := comps[0], Join(comps, SEP);
    var y := Slashes(n) + j;
    assert c0 in comps;
    assert |comps| == 1 ==> j == c0;
    assert |comps| > 1 ==> j == c0 + ([SEP] + Join(comps[1..], SEP));
    AccidentalHead(n, c0, if |comps| == 1 then "" else [SEP] + Join(comps[1..], SEP));
    assert y == Slashes(n) + c0 + (if |comps| == 1 then "" else [SEP] + Join(comps[1..], SEP));
    assert [SEP] == Slashes(1);
  }

  lemma AccidentalHead(n: nat, c0: string, rest: string)
    requires n <= 2 && Plain(c0) && (rest == "" || rest[0] == SEP)
    requires var y := Slashes(n) + c0 + rest; |y| > 2 && y[1] == ':' && y[2] == SEP
    ensures rest != "" && n + |c0| == 2
  {
    var y := Slashes(n) + c0 + rest;
    assert forall k :: n <= k < n + |c0| ==> y[k] == c0[k - n] && y[k] in c0;
    assert forall k :: 0 <= k < n ==> y[k] == SEP;
    assert rest != "" ==> y[n + |c0|] == SEP;
  }

  lemma AccidentalFixed(y: string, n: nat, comps: seq<string>)
    requires n <= 2 && AllPlain(comps) && comps != [] && y == Slashes(n) + Join(comps, SEP)
    requires DriveSettled(y) && HasDrive(y)
    ensures Assemble(Lower(y[..2]), CollapseDot(NormPath(y[2..]))) == Ok(y)
  {
    assert Lower(y[..2]) == y[..2];
    if |y| == 2 {
      DriveAlone(y);
      assert y[..2] == y && y[2..] == "";
    } else {
      AccidentalDrive(n, comps);
      FixedBody(y[..2], 1, comps[1..]);
      assert y[..2] + y[2..] == y;
    }
  }

  lemma DrivelessFixed(y: string, n: nat, comps: seq<string>)
    requires n <= 2 && AllPlain(comps) && comps != [] && y == Slashes(n) + Join(comps, SEP)
    requires DriveSettled(y)
    ensures NormalizeText(y) == Ok(y)
  {
    JoinEnds(comps);
    if HasDrive(y) {
      AccidentalFixed(y, n, comps);
    } else {
      FixedBody("", n, comps);
      assert "" + y == y;
    }
  }

  lemma DriveFixed(y: string, drive: string, n: nat, comps: seq<string>)
    requires Shape(drive, n, comps) && drive != "" && y == Render(drive, n, comps)
    ensures NormalizeText(y) == Ok(y)
  {
    if comps == [] {
      DriveAlone(drive);
      assert y[..2] == y && y[2..] == "";
    } else {
      assert y[..2] == drive && y[2..] == Slashes(n) + Join(comps, SEP);
      FixedBody(drive, n, comps);
      assert drive + y[2..] == y;
    }
  }

  lemma NormalFormFixed(drive: string, n: nat, comps: seq<string>)
    requires Shape(drive, n, comps)
    requires Trimmed(Render(drive, n, comps)) && DriveSettled(Render(drive, n, comps))
    ensures Normalize(Render(drive, n, comps)) == Ok(Render(drive, n, comps))
  {
    hide Split, NormPath, Assemble, DriveSettled;
    var y := Render(drive, n, comps);
    StripFixed(y);
    JoinFree(comps, '\\');
    assert ReplaceChar(y, '\\', SEP) == y;
    if drive != "" {
      DriveFixed(y, drive, n, comps);
    } else if comps == [] {
      SlashAlone();
    } else {
      assert y == Slashes(n) + Join(comps, SEP);
      DrivelessFixed(y, n, comps);
    }
  }

  lemma NormPathSlash()
    ensures NormPath("/") == "/"
  {
    assert Split("/", SEP) == ["", ""] by {
      SplitConcat("", "", SEP);
      assert "" + [SEP] + "" == "/";
    }
    assert Collapse(true, [], ["", ""]) == Collapse(true, [], [""]);
    assert Slashes(1) + "" == "/";
  }

  lemma SlashAlone()
    ensures Normalize("/") == Ok("/")
  {
    hide NormPath, Strip;
    StripFixed("/");
    assert ReplaceChar("/", '\\', SEP) == "/";
    NormPathSlash();
    StripTrailing("", 1);
    assert "" + Slashes(1) == "/";
  }

  // ----- the exact condition

  lemma AssembleLength(drive: string, body: string)
    requires Assemble(drive, CollapseDot(NormPath(body))).Ok? && '\\' !in body
    requires drive == "" ||
             (|drive| == 2 && drive[1] == ':' && Lower(drive) == drive && !IsSpace(drive[0]) && '\\' !in drive)
    ensures var y := Assemble(drive, CollapseDot(NormPath(body))).value;
            && (body != "" && (drive == "" || "/" <= body) ==> |y| <= |drive| + |body|)
            && (drive != "" ==> |y| >= 2 && y[..2] == drive && (|y| == 2 || y[2] == SEP))
  {
    hide NormPath, Assemble, Split;
    var n, comps := AssembleBody(drive, body);
    assert |Render(drive, n, comps)| >= |drive|;
  }

  /** What the drive branch fixes of its result. */
  lemma DriveFacts(text: string, y: string)
    requires HasDrive(text) && NormalizeText(text) == Ok(y) && '\\' !in text && !IsSpace(text[0])
    ensures HasDrive(y) && y[0] == LowerChar(text[0]) && (|y| == 2 || y[2] == SEP)
    ensures |text| > 2 && text[2] == SEP ==> |y| <= |text|
    ensures LowerChar(y[0]) == y[0] && !IsSpace(y[0])
  {
    hide NormPath, Assemble;
    var drive, body := Lower(text[..2]), text[2..];
    LowerIdempotent(text[..2]);
    AssembleLength(drive, body);
    assert y[..2] == drive;
    assert y[0] == drive[0] && y[1] == drive[1];
    assert |text| > 2 ==> body[0] == text[2];
  }

  /** Stripping a text that keeps its delimited drive start removes nothing but whitespace at the end. */
  lemma DriveStripped(y: string, t: string)
    requires t == Strip(y) && HasDrive(y) && !IsSpace(y[0]) && (|y| == 2 || y[2] == SEP)
    requires |t| > 2 && t[2] == SEP ==> |y| <= |t|
    ensures t == y
  {
    StripFixed(y);
    StripRightSpec(y);
    assert |t| >= 2 && (|y| > 2 ==> |t| > 2) by {
      assert !IsSpace(':') && !IsSpace(SEP);
    }
    assert |y| > 2 ==> t[2] == y[2];
  }

  lemma FixedWithDrive(y: string, t: string, text: string)
    requires text == ReplaceChar(t, '\\', SEP) && HasDrive(text) && NormalizeText(text) == Ok(y)
    requires t == Strip(y)
    ensures Trimmed(y) && DriveSettled(y)
  {
    hide NormalizeText, Strip;
    StripFixed(y);
    assert !IsSpace(text[0]);
    DriveFacts(text, y);
    assert |t| > 2 && t[2] == SEP ==> text[2] == SEP;
    DriveStripped(y, t);
  }

  lemma FixedWithoutDrive(y: string, t: string, text: string)
    requires text == ReplaceChar(t, '\\', SEP) && !HasDrive(text) && text != "" && NormalizeText(text) == Ok(y)
    requires t == Strip(y)
    ensures Trimmed(y) && DriveSettled(y)
  {
    hide NormPath, Strip, Assemble;
    StripFixed(y);
    AssembleLength("", text);
    assert t == y;
  }

  /** What a path that is its own normal form looks like: no outer whitespace, and a drive-like start
      that is lower case and delimited. */
  lemma FixedLooksSettled(y: string)
    requires Normalize(y) == Ok(y)
    ensures Trimmed(y) && DriveSettled(y)
  {
    hide NormPath, Assemble, Split;
    var t := Strip(y);
    var text := ReplaceChar(t, '\\', SEP);
    StripFixed(y);
    if HasDrive(text) {
      FixedWithDrive(y, t, text);
    } else if text != "" {
      FixedWithoutDrive(y, t, text);
    }
  }

  lemma EmptyFixed()
    ensures Normalize("") == Ok("")
  {
    assert ReplaceChar(Strip(""), '\\', SEP) == "";
  }

  /** Normalising is idempotent on an accepted input exactly when its normal form has no outer
      whitespace and any drive-like start of it is lower case and delimited. */
  lemma NormalizeIdempotentIff(value: string)
    requires Normalize(value).Ok?
    ensures var y := Normalize(value).value;
            Normalize(y) == Ok(y) <==> Trimmed(y) && DriveSettled(y)
  {
    hide NormalizeText, Split, Trimmed, DriveSettled, Render, Shape;
    var y := Normalize(value).value;
    if Trimmed(y) && DriveSettled(y) {
      if y == "" {
        EmptyFixed();
      } else {
        var drive, n, comps := NormalizeShape(value);
        assert y == Render(drive, n, comps);
        NormalFormFixed(drive, n, comps);
      }
    } else if Normalize(y) == Ok(y) {
      FixedLooksSettled(y);
    }
  }

  // ----- normalising again never goes deeper

  lemma AssembleBound(drive: string, n: string)
    requires Assemble(drive, n).Ok? && |drive| <= 2
    ensures var y := Assemble(drive, n).value;
            && |y| <= |drive| + |n| + 1 && (y == "/" || y[|y| - 1] != SEP)
            && (drive == "" && n != "" ==> |y| <= |n|)
  {
  }

  lemma NormPathLength(s: string)
    ensures |CollapseDot(NormPath(s))| <= |s|
  {
    if s != "" {
      var comps := NormPathShape(s);
    }
  }

  lemma NormalizeBound(value: string)
    requires Normalize(value).Ok?
    ensures var y := Normalize(value).value;
            |y| <= |value| + 1 && (y == "" || y == "/" || y[|y| - 1] != SEP)
    ensures value == "" ==> Normalize(value).value == ""
  {
    hide NormPath, Assemble, Strip, CollapseDot;
    StripFixed(value);
    var text := ReplaceChar(Strip(value), '\\', SEP);
    if HasDrive(text) {
      NormPathLength(text[2..]);
      AssembleBound(Lower(text[..2]), CollapseDot(NormPath(text[2..])));
    } else if text != "" {
      NormPathLength(text);
      AssembleBound("", CollapseDot(NormPath(text)));
    }
  }

  /** A path whose normal form differs from it does not contain that normal form. */
  lemma NextFormIsOutside(y: string)
    requires Normalize(y).Ok? && Normalize(y) != Ok(y)
    ensures !Within(Normalize(y).value, y)
  {
    hide Normalize;
    NormalizeBound(y);
    SlashAlone();
  }

  // ----- no "." or ".." survives, as components of the resulting string

  predicate NoDots(parts: seq<string>) {
    forall c :: c in parts ==> c != "." && c != ".."
  }

  lemma {:induction false} SplitRendered(n: nat, comps: seq<string>)
    requires comps != [] && AllPlain(comps)
    ensures Split(Slashes(n) + Join(comps, SEP), SEP) == seq(n, _ => "") + comps
  {
    var j := Join(comps, SEP);
    if n == 0 {
      assert Slashes(0) + j == j;
      SplitJoin(comps, SEP);
    } else {
      SplitRendered(n - 1, comps);
      assert Slashes(n) + j == "" + [SEP] + (Slashes(n - 1) + j);
      SplitConcat("", Slashes(n - 1) + j, SEP);
    }
  }

  lemma DriveSplit(drive: string, rest: string)
    requires |drive| == 2 && drive[1] == ':'
    ensures NoDots(Split(drive, SEP))
    ensures Split(drive + [SEP] + rest, SEP) == Split(drive, SEP) + Split(rest, SEP)
  {
    hide Split;
    if drive[0] != SEP {
      SplitSingle(drive, SEP);
      SplitConcat(drive, rest, SEP);
    } else {
      assert drive == "" + [SEP] + ":";
      SplitConcat("", ":", SEP);
      SplitSingle(":", SEP);
      SplitConcat("", ":" + [SEP] + rest, SEP);
      SplitConcat(":", rest, SEP);
      assert drive + [SEP] + rest == "" + [SEP] + (":" + [SEP] + rest);
      assert [""] + ([":"] + Split(rest, SEP)) == [""] + [":"] + Split(rest, SEP);
    }
  }

  lemma PlainHasNoDots(n: nat, comps: seq<string>)
    requires comps != [] && AllPlain(comps)
    ensures NoDots(Split(Slashes(n) + Join(comps, SEP), SEP))
  {
    SplitRendered(n, comps);
  }

  lemma RenderHasNoDots(drive: string, n: nat, comps: seq<string>)
    requires Shape(drive, n, comps)
    ensures NoDots(Split(Render(drive, n, comps), SEP))
  {
    hide Split, Join, AllPlain, Free;
    if comps == [] {
      if drive != "" {
        DriveSplit(drive, "");
      } else {
        SplitConcat("", "", SEP);
        SplitSingle("", SEP);
        assert "" + [SEP] + "" == "/";
      }
    } else if drive == "" {
      PlainHasNoDots(n, comps);
      assert Render(drive, n, comps) == Slashes(n) + Join(comps, SEP);
    } else {
      PlainHasNoDots(n - 1, comps);
      DriveSplit(drive, Slashes(n - 1) + Join(comps, SEP));
      assert Render(drive, n, comps) == drive + [SEP] + (Slashes(n - 1) + Join(comps, SEP));
    }
  }

  /** An accepted path never contains "." or ".." as a component. */
  lemma NormalizedHasNoTraversal(value: string)
    requires Normalize(value).Ok?
    ensures NoDots(Split(Normalize(value).value, SEP))
  {
    if Normalize(value).value != "" {
      var drive, n, comps := NormalizeShape(value);
      RenderHasNoDots(drive, n, comps);
    }
  }

  // ----- the containment order

  lemma WithinTransitive(a: string, b: string, c: string)
    requires Within(a, b) && Within(b, c)
    ensures Within(a, c)
  {
    if b + "/" <= a && c + "/" <= b {
      assert a[..|c| + 1] == b[..|c| + 1];
    }
  }

  /** Two prefixes of the same path are comparable: containment is a tree order. */
  lemma WithinComparable(t: string, l: string, r: string)
    requires Within(t, l) && Within(t, r)
    ensures Within(l, r) || Within(r, l)
  {
    assert "" + "/" == "/";
    if t != l && t != r && l != "/" && r != "/" {
      assert t[..|l|] == l && t[..|r|] == r && t[|l|] == SEP && t[|r|] == SEP;
      if |l| < |r| {
        assert r[..|l| + 1] == t[..|l| + 1] == l + "/";
      } else if |r| < |l| {
        assert l[..|r| + 1] == t[..|r| + 1] == r + "/";
      }
    } else if l == "/" {
      assert r != "" ==> r[0] == t[0];
    } else if r == "/" {
      assert l != "" ==> l[0] == t[0];
    }
  }

  lemma WithinAntisymmetric(a: string, b: string)
    requires Within(a, b) && Within(b, a)
    ensures a == b
  {
  }
}
