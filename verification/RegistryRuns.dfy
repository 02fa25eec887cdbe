/** What every reachable extension registry satisfies, and what a same-capability update does to a
    pending review. */
module RegistryRuns {
  import opened Wrappers
  import opened ExtensionRegistry

  // ----- invariants of reachable registries

  ghost predicate Sane(r: Registry) {
    forall id :: id in r ==>
      && r[id].manifest.Identity() == id
      && (r[id].enabled ==> !r[id].revoked && !r[id].reviewRequired)
      && (r[id].revoked ==> !r[id].enabled && !r[id].reviewRequired)
  }

  /** A rejected command changes nothing. */
  lemma RejectedChangesNothing(r: Registry, c: Command)
    ensures Step(r, c).1.Some? ==> Step(r, c).0 == r
  {
    hide VersionLess;
  }

  lemma StepKeepsSane(r: Registry, c: Command)
    requires Sane(r)
    ensures Sane(Step(r, c).0)
  {
    hide VersionLess;
  }

  /** In every reachable registry an enabled extension is neither revoked nor awaiting review. */
  lemma {:induction false} ReachableIsSane(commands: seq<Command>)
    ensures Sane(Run(map[], commands))
  {
    hide Step;
    if commands != [] {
      ReachableIsSane(commands[..|commands| - 1]);
      StepKeepsSane(Run(map[], commands[..|commands| - 1]), commands[|commands| - 1]);
    }
  }

  /** The command would install, update or enable the identity. */
  predicate Revives(c: Command, id: string) {
    match c
    case Install(candidate) => VerifyCandidate(candidate).Some? && VerifyCandidate(candidate).value.0.Identity() == id
    case Update(identity, _) => identity == id
    case Enable(identity, _) => identity == id
    case _ => false
  }

  /** A revoked identity stays revoked and disabled with its manifest through every command, and every
      attempt to install, update or enable it is rejected. */
  lemma RevokedStep(r: Registry, c: Command, id: string)
    requires id in r && r[id].revoked
    ensures var r' := Step(r, c).0;
            id in r' && r'[id].revoked && r'[id].manifest == r[id].manifest && (r'[id].enabled ==> r[id].enabled)
    ensures Revives(c, id) ==> Step(r, c).1.Some?
  {
    hide VersionLess;
  }

  lemma {:induction false} RevokedForever(r: Registry, commands: seq<Command>, id: string)
    requires Sane(r) && id in r && r[id].revoked
    ensures var r' := Run(r, commands);
            id in r' && r'[id].revoked && !r'[id].enabled && r'[id].manifest == r[id].manifest
    ensures forall i :: 0 <= i < |commands| && Revives(commands[i], id) ==>
            Step(Run(r, commands[..i]), commands[i]).1.Some?
  {
    hide Step, Revives;
    if commands != [] {
      var n := |commands| - 1;
      var init := commands[..n];
      RevokedForever(r, init, id);
      RevokedStep(Run(r, init), commands[n], id);
      forall i | 0 <= i < |commands| && Revives(commands[i], id)
        ensures Step(Run(r, commands[..i]), commands[i]).1.Some?
      {
        if i < n {
          assert init[..i] == commands[..i] && init[i] == commands[i];
        }
      }
    }
  }

  lemma VersionStep(r: Registry, c: Command, id: string)
    requires id in r
    ensures id in Step(r, c).0
    ensures var m, m' := r[id].manifest, Step(r, c).0[id].manifest;
            m' == m || VersionLess(m.version, m'.version)
    ensures c.Update? && c.identity == id && Step(r, c).1.None? ==>
              VersionLess(r[id].manifest.version, Step(r, c).0[id].manifest.version)
  {
    hide VersionLess;
  }

  /** Under one identity the manifest changes only to strictly higher versions, and an identity once
      installed never disappears. */
  lemma {:induction false} VersionsRise(r: Registry, commands: seq<Command>, id: string)
    requires id in r
    ensures id in Run(r, commands)
    ensures var m, m' := r[id].manifest, Run(r, commands)[id].manifest;
            m' == m || VersionLess(m.version, m'.version)
  {
    hide Step, VersionLess;
    if commands != [] {
      var n := |commands| - 1;
      VersionsRise(r, commands[..n], id);
      var before := Run(r, commands[..n]);
      VersionStep(before, commands[n], id);
      var after := Run(r, commands);
      if before[id].manifest != r[id].manifest && after[id].manifest != before[id].manifest {
        VersionLessTransitive(r[id].manifest.version, before[id].manifest.version, after[id].manifest.version);
      }
    }
  }

  // ----- approvals

  /** Which identities have had their present capabilities approved, or never asked for any. */
  type Approvals = map<string, bool>

  /** How a command that the registry accepts changes what has been approved: an installation starts
      approved only without capabilities, a change of capabilities withdraws approval, and enabling an
      extension under review, which requires the caller's approval, gives it. */
  function Track(r: Registry, a: Approvals, c: Command): Approvals {
    if Step(r, c).1.Some? then a
    else
      match c
      case Install(candidate) =>
        var m := VerifyCandidate(candidate);
        if m.Some? then a[m.value.0.Identity() := m.value.0.capabilities == []] else a
      case Update(identity, candidate) =>
        var m := VerifyCandidate(candidate);
        if m.Some? && identity in r && m.value.0.capabilities != r[identity].manifest.capabilities
        then a[identity := false] else a
      case Enable(identity, _) =>
        if identity in r && r[identity].reviewRequired then a[identity := true] else a
      case _ => a
  }

  /** An extension that is not revoked awaits review exactly while its capabilities are unapproved. */
  ghost predicate ReviewMeansUnapproved(r: Registry, a: Approvals) {
    forall id :: id in r ==> id in a && (!r[id].revoked ==> (r[id].reviewRequired <==> !a[id]))
  }

  /** An update, to a newer verified candidate of the same identity, that keeps the capabilities of an
      extension still under review. */
  predicate ClearsReview(r: Registry, c: Command) {
    c.Update? && c.identity in r && !r[c.identity].revoked && r[c.identity].reviewRequired
    && match VerifyCandidate(c.candidate)
       case None => false
       case Some((m, _)) =>
         && m.Identity() == c.identity && VersionLess(r[c.identity].manifest.version, m.version)
         && m.capabilities == r[c.identity].manifest.capabilities
  }

  /** A command keeps "awaiting review means unapproved" exactly when it is not an update that clears a
      pending review. */
  lemma ReviewKeptIff(r: Registry, a: Approvals, c: Command)
    requires ReviewMeansUnapproved(r, a)
    ensures ReviewMeansUnapproved(Step(r, c).0, Track(r, a, c)) <==> !ClearsReview(r, c)
  {
    hide VersionLess;
    var r', a' := Step(r, c).0, Track(r, a, c);
    if ClearsReview(r, c) {
      assert !r'[c.identity].revoked && !r'[c.identity].reviewRequired && !a'[c.identity];
    }
  }

  /** The approvals after a run. */
  function Tracked(commands: seq<Command>): Approvals {
    if commands == [] then map[]
    else Track(Run(map[], commands[..|commands| - 1]), Tracked(commands[..|commands| - 1]), commands[|commands| - 1])
  }

  lemma {:induction false} ReviewKept(commands: seq<Command>)
    requires NeverClears(commands)
    ensures ReviewMeansUnapproved(Run(map[], commands), Tracked(commands))
  {
    hide Step, ClearsReview, Track;
    if commands != [] {
      var n := |commands| - 1;
      ClearlessPrefix(commands, n);
      ReviewKept(commands[..n]);
      assert !ClearsReview(Run(map[], commands[..n]), commands[n]);
      ReviewKeptIff(Run(map[], commands[..n]), Tracked(commands[..n]), commands[n]);
    }
  }

  /** On runs without such an update every enabled extension has had its present capabilities approved. */
  lemma EnabledIsApproved(commands: seq<Command>, id: string)
    requires NeverClears(commands)
    requires id in Run(map[], commands) && Run(map[], commands)[id].enabled
    ensures id in Tracked(commands) && Tracked(commands)[id]
  {
    hide Step, ClearsReview, Track;
    ReachableIsSane(commands);
    ReviewKept(commands);
  }

  /** After an update that clears a review, enabling needs no approval and leaves unapproved capabilities
      enabled. */
  lemma ClearedReviewIsSkipped(r: Registry, a: Approvals, c: Command)
    requires ReviewMeansUnapproved(r, a) && ClearsReview(r, c)
    ensures var r', a', enable := Step(r, c).0, Track(r, a, c), Enable(c.identity, false);
            && Step(r, c).1.None? && Step(r', enable).1.None?
            && c.identity in Step(r', enable).0 && Step(r', enable).0[c.identity].enabled
            && c.identity in Track(r', a', enable) && !Track(r', a', enable)[c.identity]
  {
    hide VersionLess;
  }

  /** At no point of the run does enabling an extension without approval succeed with capabilities that
      nobody approved. */
  ghost predicate NeverSkipsReview(commands: seq<Command>) {
    forall n: nat, id: string :: n <= |commands| ==> !SkipsReview(commands[..n], id)
  }

  ghost predicate SkipsReview(commands: seq<Command>, id: string) {
    var r, enable := Run(map[], commands), Enable(id, false);
    && Step(r, enable).1.None? && id in Step(r, enable).0 && Step(r, enable).0[id].enabled
    && var a := Track(r, Tracked(commands), enable);
       !(id in a && a[id])
  }

  ghost predicate NeverClears(commands: seq<Command>) {
    forall i :: 0 <= i < |commands| ==> !ClearsReview(Run(map[], commands[..i]), commands[i])
  }

  /** A review is never skipped along a run exactly when the run clears none by an update. */
  lemma ReviewSkippedIff(commands: seq<Command>)
    ensures NeverSkipsReview(commands) <==> NeverClears(commands)
  {
    hide Step, ClearsReview, Track, Run, Tracked;
    if NeverClears(commands) {
      forall n: nat, id: string | n <= |commands| ensures !SkipsReview(commands[..n], id) {
        ClearlessPrefix(commands, n);
        ClearlessEnable(commands[..n], id);
      }
    } else {
      var n := FirstClear(commands);
      ReviewKept(commands[..n]);
      var r, a, c := Run(map[], commands[..n]), Tracked(commands[..n]), commands[n];
      OnlyUpdatesClear(r, c);
      ClearedReviewIsSkipped(r, a, c);
      RunOneMore(commands, n);
      assert SkipsReview(commands[..n + 1], c.identity);
    }
  }

  lemma OnlyUpdatesClear(r: Registry, c: Command)
    requires ClearsReview(r, c)
    ensures c.Update?
  {
  }

  lemma RunOneMore(commands: seq<Command>, n: nat)
    requires n < |commands|
    ensures Run(map[], commands[..n + 1]) == Step(Run(map[], commands[..n]), commands[n]).0
    ensures Tracked(commands[..n + 1]) == Track(Run(map[], commands[..n]), Tracked(commands[..n]), commands[n])
  {
    hide Step, Track;
    assert commands[..n + 1][..n] == commands[..n];
  }

  lemma ClearlessPrefix(commands: seq<Command>, n: nat)
    requires NeverClears(commands) && n <= |commands|
    ensures NeverClears(commands[..n])
  {
    hide Run, ClearsReview;
    forall i | 0 <= i < n ensures !ClearsReview(Run(map[], commands[..n][..i]), commands[..n][i]) {
      assert commands[..n][..i] == commands[..i];
    }
  }

  lemma {:induction false} FirstClear(commands: seq<Command>) returns (n: nat)
    requires !NeverClears(commands)
    ensures n < |commands| && NeverClears(commands[..n]) && ClearsReview(Run(map[], commands[..n]), commands[n])
  {
    hide Run, ClearsReview;
    n := |commands| - 1;
    if !NeverClears(commands[..n]) {
      var m := FirstClear(commands[..n]);
      assert commands[..n][..m] == commands[..m];
      n := m;
    } else {
      forall i | 0 <= i < n ensures !ClearsReview(Run(map[], commands[..i]), commands[i]) {
        assert commands[..n][..i] == commands[..i];
      }
    }
  }

  lemma ClearlessEnable(commands: seq<Command>, id: string)
    requires NeverClears(commands)
    ensures !SkipsReview(commands, id)
  {
    hide Step, Track, Run, Tracked;
    var enable := Enable(id, false);
    ReviewKept(commands);
    ReviewKeptIff(Run(map[], commands), Tracked(commands), enable);
    ReachableIsSane(commands);
    StepKeepsSane(Run(map[], commands), enable);
  }

  // ----- one run that skips the review

  function Sample(version: Version): Candidate {
    Candidate(Some((Manifest("plugin", "x", "p", version, "c", ["net"], "main", "t"), "sha")), "c", "t")
  }

  /** Installing, updating with the same capabilities and enabling without approval is accepted: the
      extension ends enabled with capabilities nobody approved. */
  lemma ReviewCanBeSkipped() returns (commands: seq<Command>, id: string)
    ensures forall i :: 0 <= i < |commands| ==> Step(Run(map[], commands[..i]), commands[i]).1.None?
    ensures forall i :: 0 <= i < |commands| && commands[i].Enable? ==> !commands[i].capabilitiesApproved
    ensures var r := Run(map[], commands);
            id in r && r[id].enabled && r[id].manifest.capabilities != [] && id in Tracked(commands) &&
                !Tracked(commands)[id]
  {
    var first, second := Sample(Version(1, 0, 0, "")), Sample(Version(1, 0, 1, ""));
    id := first.envelope.value.0.Identity();
    var c0, c1, c2 := Install(first), Update(id, second), Enable(id, false);
    commands := [c0, c1, c2];
    assert commands[..0] == [] && commands[..1] == [c0] && commands[..2] == [c0, c1];
    assert [c0][..0] == [] && [c0, c1][..1] == [c0];
    var r1 := Step(map[], c0).0;
    assert Run(map[], [c0]) == r1;
    var r2 := Step(r1, c1).0;
    assert Run(map[], [c0, c1]) == r2;
    assert Step(r1, c1).1.None?;
    var r3 := Step(r2, c2).0;
    assert Run(map[], commands) == r3;
    assert Tracked([]) == map[];
    assert Tracked([c0]) == Track(map[], map[], c0);
    assert Tracked([c0, c1]) == Track(r1, Tracked([c0]), c1);
    assert Tracked(commands) == Track(r2, Tracked([c0, c1]), c2);
  }
}
