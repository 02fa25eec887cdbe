/** Sample paths for each case of the exact conditions. */
module PathSamples {
  import opened Wrappers
  import opened Text
  import opened Paths
  import opened PolicyScope
  import opened PolicyEngine
  import opened PolicyProbes
  import opened PolicyGuarantees
  import opened PolicyExactness

  lemma LongNormPath()
    ensures NormPath("a / /") == "a / "
  {
    assert Split("a / /", SEP) == ["a ", " ", ""] by {
      SplitConcat(" ", "", SEP);
      SplitConcat("a ", " /", SEP);
      assert " " + [SEP] + "" == " /" && "a " + [SEP] + " /" == "a / /";
    }
    hide Split;
    assert Collapse(false, [], ["a ", " ", ""]) == Collapse(false, ["a "], [" ", ""]) by {
      assert ["a ", " ", ""][1..] == [" ", ""] && [] + ["a "] == ["a "];
    }
    assert Collapse(false, ["a "], [" ", ""]) == Collapse(false, ["a ", " "], [""]) by {
      assert [" ", ""][1..] == [""] && ["a "] + [" "] == ["a ", " "];
    }
    assert Collapse(false, ["a ", " "], [""]) == ["a ", " "];
    hide Collapse;
    assert Join(["a ", " "], SEP) == "a / ";
    assert Slashes(0) + "a / " == "a / ";
  }

  lemma ShortNormPaths()
    ensures NormPath("a /") == "a " && NormPath("a") == "a"
  {
    assert Split("a /", SEP) == ["a ", ""] by {
      SplitConcat("a ", "", SEP);
      assert "a " + [SEP] + "" == "a /";
    }
    assert Collapse(false, [], ["a ", ""]) == Collapse(false, ["a "], [""]) by {
      assert ["a ", ""][1..] == [""] && [] + ["a "] == ["a "];
    }
    assert Collapse(false, ["a "], [""]) == ["a "];
    assert Join(["a "], SEP) == "a " && Slashes(0) + "a " == "a ";
    NormPathFixed(0, ["a"]);
    assert Slashes(0) + Join(["a"], SEP) == "a";
  }

  lemma Stripped()
    ensures Strip("a / /") == "a / /" && Strip("a / ") == "a /" && Strip("a ") == "a" && Strip("a") == "a"
  {
  }

  lemma NoBackslashes()
    ensures ReplaceChar("a / /", '\\', SEP) == "a / /" && ReplaceChar("a /", '\\', SEP) == "a /"
    ensures ReplaceChar("a", '\\', SEP) == "a"
  {
  }

  /** Normalising needs three rounds here. */
  lemma OddNormalForms()
    ensures Normalize("a / /") == Ok("a / ") && Normalize("a / ") == Ok("a ") && Normalize("a ") == Ok("a")
    ensures Normalize("a") == Ok("a")
  {
    hide NormPath, Strip, ReplaceChar;
    LongNormPath();
    ShortNormPaths();
    Stripped();
    NoBackslashes();
    assert "a / "[0] == 'a' && "a "[0] == 'a' && "a"[0] == 'a';
    AssembleKeeps("", "a / ");
    AssembleKeeps("", "a ");
    AssembleKeeps("", "a");
    assert "" + "a / " == "a / " && "" + "a " == "a " && "" + "a" == "a";
  }

  /** With the prefix "a / /" as base and as overlay, the overlay admits a path the base refused. */
  lemma OddPrefixRelaxes()
    ensures Normalize("a / /") == Ok("a / ")
    ensures !Admits(Normalize, "a", ["a / "])
    ensures PathMeet(Normalize, ["a / "], ["a / "]) == Ok(["a "])
    ensures Admits(Normalize, "a", ["a "])
  {
    hide Normalize, SortedSet;
    OddNormalForms();
    SelfMeetExactIff(Normalize, "a / ");
    assert "a " in ["a "];
  }

  /** The same in a whole evaluation: a read of "a " under the project root "a / /" is denied, and allowed
      once an overlay names that root. */
  lemma OddOverlayRelaxes()
    ensures var config := ProbeConfig("filesystem", ROOTED);
            var few := Evaluate(Normalize, ReadProbe("a / /", "a ", []), config);
            var more := Evaluate(Normalize, ReadProbe("a / /", "a ", [PathOverlay("user", ["a / /"])]), config);
            few.Ok? && few.value.status == Deny && more.Ok? && more.value.status == Allow
  {
    OddNormalForms();
    Stripped();
    assert "a " != "a" by {
      assert |"a "| == 2 && |"a"| == 1;
    }
    hide Strip, Normalize, Evaluate;
    ReadRelaxes("a / /", "a / ", "a ", "a");
  }

  /** "a /" settles at its second form, "a / /" does not; and a second form can be refused. */
  lemma TidySamples()
    ensures Tidy("a") && Tidy("a /") && !Tidy("a / /")
    ensures Normalize("./ ..") == Ok(" ..") && Normalize(" ..").Refused? && !Tidy("./ ..")
  {
    OddNormalForms();
    HiddenTraversal();
    Stripped();
    StrippedAgain("a / ");
    assert Normalize("a /") == Normalize("a / ") by {
      hide Strip;
    }
    hide Normalize;
    assert "a"[0] == 'a' && |"a"| == 1;
    assert "a "[1] == ' ' && |"a "| == 2;
  }

  lemma HiddenTraversal()
    ensures Normalize("./ ..") == Ok(" ..") && Normalize(" ..").Refused?
  {
    HiddenNormPath();
    TraversalNormPath();
    DotsStripped();
    hide NormPath, Strip, ReplaceChar;
    AssembleKeeps("", " ..");
    assert "" + " .." == " ..";
  }

  lemma HiddenNormPath()
    ensures NormPath("./ ..") == " .."
  {
    assert Split("./ ..", SEP) == [".", " .."] by {
      SplitConcat(".", " ..", SEP);
      SplitSingle(" ..", SEP);
      assert "." + [SEP] + " .." == "./ ..";
    }
    hide Split;
    assert [".", " .."][1..] == [" .."] && [] + [" .."] == [" .."];
    assert Collapse(false, [], [".", " .."]) == Collapse(false, [], [" .."]);
    assert Collapse(false, [], [" .."]) == [" .."];
    hide Collapse;
    assert Slashes(0) + " .." == " ..";
  }

  lemma TraversalNormPath()
    ensures NormPath("..") == ".."
  {
    SplitSingle("..", SEP);
    hide Split;
    assert [] + [".."] == [".."];
    assert Collapse(false, [], [".."]) == [".."];
    hide Collapse;
    assert Slashes(0) + ".." == "..";
  }

  lemma DotsStripped()
    ensures Strip("./ ..") == "./ .." && Strip(" ..") == ".."
    ensures ReplaceChar("./ ..", '\\', SEP) == "./ .." && ReplaceChar("..", '\\', SEP) == ".."
  {
  }

  function SampleRequest(): Request {
    ReadProbe("a", "a", [])
  }

  function SampleConfig(): Config {
    ProbeConfig("filesystem", ROOTED)
  }

  function SampleOverlay(): Overlay {
    PathOverlay("user", ["a"])
  }

  /** Requests that meet every condition of the guarantees exist, with an overlay to add and a grant: the
      root "a" and an overlay that names it. */
  lemma GuaranteesApply()
    ensures Draws(SampleRequest(), SampleConfig(), [SampleOverlay()], Tidy, NotStar)
    ensures DrawsHosts(SampleRequest(), SampleConfig(), Flat)
    ensures var d := Evaluate(Normalize, SampleRequest(), SampleConfig()); d.Ok? && d.value.status == Allow
  {
    hide *;
    SampleDraws();
    SampleAllowed();
  }

  lemma SampleAllowed()
    ensures var d := Evaluate(Normalize, SampleRequest(), SampleConfig()); d.Ok? && d.value.status == Allow
  {
    ProbeOrder(SampleOverlay(), PathOverlay("organization", []));
    OddNormalForms();
    Stripped();
    hide Strip, Normalize, Evaluate, OrderOverlays, ProbeConfig, PathOverlay, Probe, AnyWithin;
    OwnTest("a");
    ReadOnce("a", "a", "a", [], "a", true);
  }

  lemma SampleDraws()
    ensures Draws(SampleRequest(), SampleConfig(), [SampleOverlay()], Tidy, NotStar)
    ensures DrawsHosts(SampleRequest(), SampleConfig(), Flat)
  {
    TidySamples();
    ProbeOverlays(Effect("filesystem", "read", Some("a")), "a", [], [], []);
    hide Strip, Normalize, Draws, DrawsHosts, Tidy, ProbeConfig, PathOverlay, Flat, Probe;
    RootedDraws("a", SampleRequest(), [SampleOverlay()]);
    DrawsMore(SampleRequest(), SampleConfig(), [SampleOverlay()], JustOne("a"), Nothing(), Tidy, NotStar);
    DrawsMoreHosts(SampleRequest(), SampleConfig(), Nothing(), Flat);
  }

  lemma OwnTest(p: string)
    requires Normalize(p) == Ok(p)
    ensures AnyWithin(Normalize, p, [p]) == Ok(true)
  {
    hide Normalize;
  }
}
