/** What path normalisation does to a path written as components: the resolution laws of the file system
    names, on the strings themselves. */
module PathLaws {
  import opened Wrappers
  import opened Text
  import opened Paths

  // ----- paths written as components

  /** A drive or nothing, some slashes and components between slashes. */
  function PathText(drive: string, n: nat, comps: seq<string>): string {
    drive + (Slashes(n) + Join(comps, SEP))
  }

  /** The components hold no slash, and the first one adds none to the slashes before it. */
  ghost predicate Components(comps: seq<string>) {
    Free(comps, SEP) && (comps != [] ==> comps[0] != "")
  }

  /** A text that reads as the drive, slashes and components it was written from. */
  ghost predicate Written(drive: string, n: nat, comps: seq<string>) {
    var text := PathText(drive, n, comps);
    && text != "" && Trimmed(text) && '\\' !in text && Components(comps)
    && (if drive == "" then !HasDrive(text) else |drive| == 2 && drive[1] == ':')
  }

  /** Plain components less the ".." among them: how far below its start a path leads. */
  function Depth(comps: seq<string>): int {
    if comps == [] then 0
    else
      var last := comps[|comps| - 1];
      Depth(comps[..|comps| - 1]) + (if last == ".." then -1 else if last == "" || last == "." then 0 else 1)
  }

  /** At some point the ".." outnumber the plain components before them. */
  ghost predicate Climbs(comps: seq<string>) {
    exists k :: 0 <= k <= |comps| && Depth(comps[..k]) < 0
  }

  // ----- `normpath` of a written path

  lemma {:induction false} CollapseConcat(rooted: bool, acc: seq<string>, a: seq<string>, b: seq<string>)
    ensures Collapse(rooted, acc, a + b) == Collapse(rooted, Collapse(rooted, acc, a), b)
    decreases |a|
  {
    hide PushComponent;
    if a == [] {
      assert a + b == b;
    } else {
      assert (a + b)[1..] == a[1..] + b;
      CollapseConcat(rooted, PushComponent(rooted, acc, a[0]), a[1..], b);
    }
  }

  lemma {:induction false} CollapseEmpties(rooted: bool, acc: seq<string>, n: nat, comps: seq<string>)
    ensures Collapse(rooted, acc, seq(n, _ => "") + comps) == Collapse(rooted, acc, comps)
    decreases n
  {
    var s := seq(n, _ => "") + comps;
    if n == 0 {
      assert s == comps;
    } else {
      assert s[0] == "" && s[1..] == seq(n - 1, _ => "") + comps;
      CollapseEmpties(rooted, acc, n - 1, comps);
    }
  }

  lemma {:induction false} SplitText(n: nat, comps: seq<string>)
    requires comps != [] && Free(comps, SEP)
    ensures Split(Slashes(n) + Join(comps, SEP), SEP) == seq(n, _ => "") + comps
  {
    var j := Join(comps, SEP);
    if n == 0 {
      assert Slashes(0) + j == j;
      SplitJoin(comps, SEP);
    } else {
      SplitText(n - 1, comps);
      assert Slashes(n) + j == "" + [SEP] + (Slashes(n - 1) + j);
      SplitConcat("", Slashes(n - 1) + j, SEP);
    }
  }

  function KeptSlashes(n: nat): nat {
    if n > 2 then 1 else n
  }

  lemma LeadingOf(n: nat, j: string)
    requires j == "" || j[0] != SEP
    ensures LeadingSlashes(Slashes(n) + j) == KeptSlashes(n)
  {
    var s := Slashes(n) + j;
    assert n < |s| ==> s[n] == j[0];
    assert n >= 3 ==> s[..3] == "///";
    assert n >= 2 ==> s[..2] == "//";
    assert n >= 1 ==> s[0] == SEP;
  }

  lemma JoinStart(comps: seq<string>)
    requires Components(comps)
    ensures var j := Join(comps, SEP); (j == "" <==> comps == []) && (j == "" || j[0] != SEP)
  {
    assert comps != [] ==> comps[0] in comps;
  }

  lemma NormPathOf(n: nat, comps: seq<string>)
    requires Components(comps)
    ensures var m, kept := KeptSlashes(n), Collapse(n > 0, [], comps);
            NormPath(Slashes(n) + Join(comps, SEP)) ==
            if m == 0 && Join(kept, SEP) == "" then "." else Slashes(m) + Join(kept, SEP)
  {
    hide Collapse, Split, LeadingSlashes;
    JoinStart(comps);
    var j := Join(comps, SEP);
    LeadingOf(n, j);
    if comps == [] {
      SplitText(n, [""]);
      assert Join([""], SEP) == "";
      CollapseEmpties(n > 0, [], n, [""]);
      OneEmpty(n > 0);
    } else {
      SplitText(n, comps);
      CollapseEmpties(n > 0, [], n, comps);
    }
  }

  lemma OneEmpty(rooted: bool)
    ensures Collapse(rooted, [], [""]) == [] && Collapse(rooted, [], []) == []
  {
    assert [""][1..] == [];
  }

  lemma SameNormPath(n: nat, a: seq<string>, b: seq<string>)
    requires Components(a) && Components(b) && Collapse(n > 0, [], a) == Collapse(n > 0, [], b)
    ensures NormPath(Slashes(n) + Join(a, SEP)) == NormPath(Slashes(n) + Join(b, SEP))
  {
    hide Collapse, NormPath, Components;
    NormPathOf(n, a);
    NormPathOf(n, b);
  }

  lemma NormalizeWritten(drive: string, n: nat, comps: seq<string>)
    requires Written(drive, n, comps)
    ensures Normalize(PathText(drive, n, comps)) ==
            Assemble(Lower(drive), CollapseDot(NormPath(Slashes(n) + Join(comps, SEP))))
  {
    hide NormPath, Assemble, Components;
    var text := PathText(drive, n, comps);
    StripFixed(text);
    assert ReplaceChar(text, '\\', SEP) == text;
    assert drive == "" ==> text == Slashes(n) + Join(comps, SEP) && Lower(drive) == "";
    assert drive != "" ==> text[..2] == drive && text[2..] == Slashes(n) + Join(comps, SEP);
  }

  lemma SameNormal(drive: string, n: nat, a: seq<string>, b: seq<string>)
    requires Written(drive, n, a) && Written(drive, n, b) && Collapse(n > 0, [], a) == Collapse(n > 0, [], b)
    ensures Normalize(PathText(drive, n, a)) == Normalize(PathText(drive, n, b))
  {
    hide Normalize, Collapse, NormPath, Assemble, CollapseDot;
    NormalizeWritten(drive, n, a);
    NormalizeWritten(drive, n, b);
    SameNormPath(n, a, b);
  }

  // ----- the laws

  lemma MiddleVanishes(rooted: bool, a: seq<string>, middle: seq<string>, b: seq<string>)
    requires var acc := Collapse(rooted, [], a); Collapse(rooted, acc, middle) == acc
    ensures Collapse(rooted, [], a + middle + b) == Collapse(rooted, [], a + b)
  {
    hide Collapse;
    CollapseConcat(rooted, [], a + middle, b);
    CollapseConcat(rooted, [], a, middle);
    CollapseConcat(rooted, [], a, b);
  }

  lemma PushAndPop(rooted: bool, acc: seq<string>, c: string)
    requires Plain(c)
    ensures Collapse(rooted, acc, [c, ".."]) == acc
  {
    assert [c, ".."][1..] == [".."] && [".."][1..] == [];
    assert PushComponent(rooted, acc, c) == acc + [c];
    assert PushComponent(rooted, acc + [c], "..") == (acc + [c])[..|acc|] == acc;
    assert Collapse(rooted, acc, []) == acc;
  }

  lemma EmptySkipped(rooted: bool, acc: seq<string>, e: string)
    requires e == "" || e == "."
    ensures Collapse(rooted, acc, [e]) == acc
  {
    assert [e][1..] == [];
  }

  /** A component and the ".." after it cancel, wherever they stand. */
  lemma ParentCancels(drive: string, n: nat, a: seq<string>, c: string, b: seq<string>)
    requires Plain(c) && Written(drive, n, a + [c, ".."] + b) && Written(drive, n, a + b)
    ensures Normalize(PathText(drive, n, a + [c, ".."] + b)) == Normalize(PathText(drive, n, a + b))
  {
    hide *;
    PushAndPop(n > 0, Collapse(n > 0, [], a), c);
    MiddleVanishes(n > 0, a, [c, ".."], b);
    SameNormal(drive, n, a + [c, ".."] + b, a + b);
  }

  /** An empty component and a "." change nothing. */
  lemma EmptyVanishes(drive: string, n: nat, a: seq<string>, e: string, b: seq<string>)
    requires (e == "" || e == ".") && Written(drive, n, a + [e] + b) && Written(drive, n, a + b)
    ensures Normalize(PathText(drive, n, a + [e] + b)) == Normalize(PathText(drive, n, a + b))
  {
    hide *;
    EmptySkipped(n > 0, Collapse(n > 0, [], a), e);
    MiddleVanishes(n > 0, a, [e], b);
    SameNormal(drive, n, a + [e] + b, a + b);
  }

  /** Nothing is above the root. */
  lemma RootHasNoParent(drive: string, n: nat, b: seq<string>)
    requires n > 0 && Written(drive, n, [".."] + b) && Written(drive, n, b)
    ensures Normalize(PathText(drive, n, [".."] + b)) == Normalize(PathText(drive, n, b))
  {
    assert ([".."] + b)[1..] == b;
    hide Normalize;
    SameNormal(drive, n, [".."] + b, b);
  }

  /** Three and more leading slashes are one. */
  lemma ManySlashes(drive: string, n: nat, comps: seq<string>)
    requires n > 2 && Written(drive, n, comps) && Written(drive, 1, comps)
    ensures Normalize(PathText(drive, n, comps)) == Normalize(PathText(drive, 1, comps))
  {
    hide Normalize, Collapse, NormPath, Assemble, CollapseDot;
    NormalizeWritten(drive, n, comps);
    NormalizeWritten(drive, 1, comps);
    NormPathOf(n, comps);
    NormPathOf(1, comps);
  }

  // ----- what stays

  lemma PlainOnDrive(drive: string, kept: seq<string>)
    requires drive != "" && AllPlain(kept)
    ensures var j := Join(kept, SEP);
            Assemble(drive, CollapseDot(if j == "" then "." else j)) == Assemble(drive, CollapseDot("/" + j))
  {
    hide RStripChar, Join;
    var j := Join(kept, SEP);
    NotTraversal(0, kept);
    SlashCount(0, kept);
    assert Slashes(0) + j == j;
    JoinPlainEmpty(kept);
    assert ("/" + j)[0] == SEP && j != "" ==> ("/" + j) != ".";
  }

  lemma JoinPlainEmpty(kept: seq<string>)
    requires AllPlain(kept)
    ensures Join(kept, SEP) == "" <==> kept == []
  {
    if kept != [] {
      JoinEnds(kept);
    }
  }

  lemma WrittenComponents(drive: string, n: nat, comps: seq<string>)
    requires Written(drive, n, comps)
    ensures Components(comps) && Free(comps, SEP)
  {
  }

  lemma KeptOne(j: string)
    ensures KeptSlashes(0) == 0 && KeptSlashes(1) == 1
    ensures Slashes(0) + j == j && Slashes(1) + j == "/" + j
  {
  }

  lemma PlainBody(drive: string, n: nat, comps: seq<string>)
    requires n <= 2 && AllPlain(comps) && comps != [] && (drive == "" || n > 0)
    ensures var s := Slashes(n) + Join(comps, SEP); Assemble(drive, CollapseDot(s)) == Ok(drive + s)
  {
    hide Assemble, Join;
    var s, j := Slashes(n) + Join(comps, SEP), Join(comps, SEP);
    NotTraversal(n, comps);
    JoinEnds(comps);
    SlashCount(n, comps);
    assert s[|s| - 1] == j[|j| - 1];
    AssembleKeeps(drive, s);
  }

  lemma PlainCollapse(n: nat, comps: seq<string>)
    requires AllPlain(comps)
    ensures Collapse(n > 0, [], comps) == comps
  {
    CollapsePlain(n > 0, [], comps);
    assert [] + comps == comps;
  }

  /** A path of plain components keeps them: only the drive's case and the number of slashes change, to one
      after a drive and to one for three and more. */
  lemma PlainStays(drive: string, n: nat, comps: seq<string>)
    requires Written(drive, n, comps) && AllPlain(comps) && comps != []
    ensures var m := if n > 2 || (n == 0 && drive != "") then 1 else n;
            Normalize(PathText(drive, n, comps)) == Ok(Lower(drive) + (Slashes(m) + Join(comps, SEP)))
  {
    hide *;
    var j := Join(comps, SEP);
    WrittenComponents(drive, n, comps);
    NormalizeWritten(drive, n, comps);
    NormPathOf(n, comps);
    PlainCollapse(n, comps);
    JoinPlainEmpty(comps);
    KeptOne(j);
    LowerDrive(drive);
    KeptCount(n);
    if n == 0 && drive != "" {
      PlainOnDrive(Lower(drive), comps);
      PlainBody(Lower(drive), 1, comps);
    } else {
      PlainBody(Lower(drive), KeptSlashes(n), comps);
    }
  }

  lemma KeptCount(n: nat)
    ensures KeptSlashes(n) == if n > 2 then 1 else n
  {
  }

  lemma LowerDrive(drive: string)
    ensures Lower(drive) == "" <==> drive == ""
  {
  }

  /** What is only slashes, after a drive or not, is the root. */
  lemma RootStays(drive: string, n: nat)
    requires Written(drive, n, [])
    ensures Normalize(PathText(drive, n, [])) == Ok(if drive == "" then "/" else Lower(drive))
  {
    hide *;
    NormalizeWritten(drive, n, []);
    NoComponents();
    NormPathOf(n, []);
    OneEmpty(n > 0);
    KeptCount(n);
    DriveEnds(drive, n);
    assert Slashes(KeptSlashes(n)) + "" == Slashes(KeptSlashes(n));
    SlashesOnDrive(Lower(drive), KeptSlashes(n));
  }

  lemma SlashesOnDrive(d: string, m: nat)
    requires if d == "" then m > 0 else d[|d| - 1] != SEP
    ensures Assemble(d, CollapseDot(if m == 0 then "." else Slashes(m))) == Ok(if d == "" then "/" else d)
  {
    hide RStripChar;
    StripTrailing(d, if m == 0 then 1 else m);
    assert d + ("/" + "") == d + Slashes(1);
    assert d == "" ==> d + Slashes(m) == Slashes(m);
    SlashesAlone(m);
  }

  lemma NoComponents()
    ensures Components([]) && Join([], SEP) == ""
  {
  }

  lemma SlashesAlone(m: nat)
    ensures var s := Slashes(m); !("../" <= s) && s != ".." && s != "." && (m > 0 <==> "/" <= s)
  {
    var s := Slashes(m);
    assert m > 0 ==> s[0] == SEP;
  }

  lemma DriveEnds(drive: string, n: nat)
    requires Written(drive, n, [])
    ensures drive == "" ==> n > 0 && Lower(drive) == ""
    ensures drive != "" ==> Lower(drive) != "" && Lower(drive)[|Lower(drive)| - 1] != SEP
  {
    assert Slashes(n) + "" == Slashes(n);
  }

  // ----- refusals

  lemma CollapseLast(rooted: bool, comps: seq<string>)
    requires comps != []
    ensures var n := |comps| - 1;
            Collapse(rooted, [], comps) == PushComponent(rooted, Collapse(rooted, [], comps[..n]), comps[n])
  {
    var n := |comps| - 1;
    assert comps == comps[..n] + [comps[n]];
    CollapseConcat(rooted, [], comps[..n], [comps[n]]);
    assert [comps[n]][1..] == [];
  }

  lemma ClimbsLast(comps: seq<string>)
    requires comps != []
    ensures Climbs(comps) <==> Climbs(comps[..|comps| - 1]) || Depth(comps) < 0
  {
    hide Depth;
    var n := |comps| - 1;
    assert comps[..|comps|] == comps;
    forall k | 0 <= k <= n ensures Depth(comps[..n][..k]) == Depth(comps[..k]) {
      assert comps[..n][..k] == comps[..k];
    }
  }

  lemma DepthNotNegative(comps: seq<string>)
    ensures !Climbs(comps) ==> Depth(comps) >= 0
  {
    assert comps[..|comps|] == comps;
    assert !Climbs(comps) ==> !(Depth(comps[..|comps|]) < 0);
  }

  /** A path that has climbed keeps a ".." at its start. */
  lemma PushOnClimbed(acc: seq<string>, comp: string)
    requires acc != [] && acc[0] == ".."
    ensures var kept := PushComponent(false, acc, comp); kept != [] && kept[0] == ".."
  {
  }

  /** One more component on plain ones: the depth says how many are kept, or that the path climbs. */
  lemma PushOnPlain(acc: seq<string>, comp: string, step: int)
    requires AllPlain(acc) && SEP !in comp
    requires step == if comp == ".." then -1 else if comp == "" || comp == "." then 0 else 1
    ensures var kept := PushComponent(false, acc, comp);
            if |acc| + step < 0 then kept == [".."]
            else AllPlain(kept) && |kept| == |acc| + step && PushComponent(true, acc, comp) == kept
  {
    assert acc != [] ==> acc[|acc| - 1] in acc;
  }

  /** What collapsing a relative path keeps: plain components as deep as the path leads, or a ".." first. */
  lemma {:induction false} CollapseDepth(comps: seq<string>)
    requires Free(comps, SEP)
    ensures var kept := Collapse(false, [], comps);
            if Climbs(comps) then kept != [] && kept[0] == ".."
            else AllPlain(kept) && |kept| == Depth(comps) && Collapse(true, [], comps) == kept
  {
    if comps == [] {
      assert comps[..0] == [];
    } else {
      var n := |comps| - 1;
      hide Collapse, PushComponent, AllPlain, Climbs;
      CollapseDepth(comps[..n]);
      CollapseLast(false, comps);
      CollapseLast(true, comps);
      ClimbsLast(comps);
      assert comps[n] in comps;
      var acc := Collapse(false, [], comps[..n]);
      if Climbs(comps[..n]) {
        PushOnClimbed(acc, comps[n]);
      } else {
        PushOnPlain(acc, comps[n], Depth(comps) - Depth(comps[..n]));
        DepthNotNegative(comps);
      }
    }
  }

  lemma TraversalStart(kept: seq<string>)
    requires kept != [] && kept[0] == ".."
    ensures var j := Join(kept, SEP); j != "" && j != "." && ("../" <= j || j == "..")
  {
  }

  /** A path is refused exactly when it is relative, to nothing or to a drive, and climbs above its start. */
  lemma RefusedIffClimbs(drive: string, n: nat, comps: seq<string>)
    requires Written(drive, n, comps)
    ensures Normalize(PathText(drive, n, comps)).Refused? <==> n == 0 && Climbs(comps)
  {
    hide Collapse, Normalize, NormPath, Climbs;
    NormalizeWritten(drive, n, comps);
    NormPathOf(n, comps);
    var kept := Collapse(n > 0, [], comps);
    if n == 0 {
      assert Slashes(0) + Join(kept, SEP) == Join(kept, SEP);
      CollapseDepth(comps);
      if Climbs(comps) {
        TraversalStart(kept);
      } else {
        NotTraversal(0, kept);
      }
    } else {
      assert (Slashes(KeptSlashes(n)) + Join(kept, SEP))[0] == SEP;
    }
  }

  /** A relative path becomes the root of the file system exactly when it leads back to its own start. */
  lemma BackToStartIsRoot(comps: seq<string>)
    requires Written("", 0, comps)
    ensures Normalize(PathText("", 0, comps)) == Ok("/") <==> !Climbs(comps) && Depth(comps) == 0
  {
    hide *;
    RefusedIffClimbs("", 0, comps);
    if !Climbs(comps) {
      WrittenComponents("", 0, comps);
      NormalizeWritten("", 0, comps);
      NormPathOf(0, comps);
      CollapseDepth(comps);
      var kept := Collapse(false, [], comps);
      KeptOne(Join(kept, SEP));
      LowerDrive("");
      JoinPlainEmpty(kept);
      if kept == [] {
        EmptyIsRoot();
      } else {
        PlainBody("", 0, kept);
        NotRoot(kept);
      }
    }
  }

  lemma EmptyIsRoot()
    ensures Assemble("", CollapseDot(".")) == Ok("/")
  {
  }

  lemma NotRoot(kept: seq<string>)
    requires kept != [] && AllPlain(kept)
    ensures "" + (Slashes(0) + Join(kept, SEP)) != "/"
  {
    JoinEnds(kept);
    assert "" + (Slashes(0) + Join(kept, SEP)) == Join(kept, SEP);
  }

  // ----- drives and separators

  /** A path on a drive without a slash is the path from the drive's root, unless it climbs. */
  lemma DriveRelative(drive: string, comps: seq<string>)
    requires drive != "" && Written(drive, 0, comps) && Written(drive, 1, comps)
    ensures Normalize(PathText(drive, 0, comps)) ==
            if Climbs(comps) then Refused else Normalize(PathText(drive, 1, comps))
  {
    hide *;
    RefusedIffClimbs(drive, 0, comps);
    if Climbs(comps) {
      RefusedOnly(Normalize(PathText(drive, 0, comps)));
    } else {
      WrittenComponents(drive, 0, comps);
      NormalizeWritten(drive, 0, comps);
      NormalizeWritten(drive, 1, comps);
      NormPathOf(0, comps);
      NormPathOf(1, comps);
      CollapseDepth(comps);
      var kept := Collapse(false, [], comps);
      KeptOne(Join(kept, SEP));
      LowerDrive(drive);
      PlainOnDrive(Lower(drive), kept);
    }
  }

  lemma RefusedOnly(r: Result<string>)
    requires r.Refused?
    ensures r == Refused
  {
  }

  /** The case of a drive letter does not matter. */
  lemma DriveCase(drive: string, n: nat, comps: seq<string>)
    requires drive != "" && Written(drive, n, comps) && Written(Lower(drive), n, comps)
    ensures Normalize(PathText(drive, n, comps)) == Normalize(PathText(Lower(drive), n, comps))
  {
    hide Normalize, NormPath, Assemble;
    NormalizeWritten(drive, n, comps);
    NormalizeWritten(Lower(drive), n, comps);
    LowerIdempotent(drive);
  }

  lemma {:induction false} ReplaceStripLeft(s: string)
    ensures StripLeft(ReplaceChar(s, '\\', SEP)) == ReplaceChar(StripLeft(s), '\\', SEP)
  {
    if s != "" {
      ReplacedSpace(s[0]);
      hide IsSpace;
      ReplaceStripLeft(s[1..]);
      assert ReplaceChar(s, '\\', SEP)[1..] == ReplaceChar(s[1..], '\\', SEP);
    }
  }

  lemma {:induction false} ReplaceStripRight(s: string)
    ensures StripRight(ReplaceChar(s, '\\', SEP)) == ReplaceChar(StripRight(s), '\\', SEP)
  {
    if s != "" {
      var n := |s| - 1;
      ReplacedSpace(s[n]);
      hide IsSpace;
      ReplaceStripRight(s[..n]);
      assert ReplaceChar(s, '\\', SEP)[..n] == ReplaceChar(s[..n], '\\', SEP);
    }
  }

  lemma ReplacedSpace(c: char)
    ensures IsSpace(if c == '\\' then SEP else c) <==> IsSpace(c)
  {
  }

  /** A backslash is a slash. */
  lemma BackslashIsSlash(value: string)
    ensures Normalize(value) == Normalize(ReplaceChar(value, '\\', SEP))
  {
    hide NormalizeText, StripLeft, StripRight;
    ReplaceStripLeft(value);
    ReplaceStripRight(StripLeft(value));
    var once := ReplaceChar(Strip(value), '\\', SEP);
    assert ReplaceChar(once, '\\', SEP) == once;
  }

  /** Whitespace around a path does not count. */
  lemma OuterSpaceDropped(value: string)
    ensures Normalize(value) == Normalize(Strip(value))
  {
    hide NormalizeText, Strip, IsSpace;
    StripFixed(value);
    StripFixed(Strip(value));
  }
}
