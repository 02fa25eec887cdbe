/** When each registry command is accepted and what it then stores, clause by clause, and where every
    installed manifest came from. */
module RegistryRules {
  import opened Wrappers
  import opened Text
  import opened ExtensionRegistry

  // ----- candidates

  /** The signed manifest carries the digests of the actual code and of the actual tests. */
  ghost predicate Checked(c: Candidate) {
    && c.envelope.Some?
    && c.envelope.value.0.codeSha256 == c.actualCode
    && c.envelope.value.0.testsSha256 == c.actualTests
  }

  function NameOf(m: Manifest): string {
    m.publisher + "/" + m.identifier
  }

  // ----- versions

  /** Exactly one of two versions is lower unless they are equal, and the first number that differs decides;
      with equal numbers the suffixes do. */
  lemma VersionOrder(a: Version, b: Version)
    ensures (a == b && !VersionLess(a, b) && !VersionLess(b, a))
            || (a != b && (VersionLess(a, b) <==> !VersionLess(b, a)))
    ensures a.major != b.major ==> (VersionLess(a, b) <==> a.major < b.major)
    ensures a.major == b.major && a.minor != b.minor ==> (VersionLess(a, b) <==> a.minor < b.minor)
    ensures a.major == b.major && a.minor == b.minor && a.patch != b.patch ==>
              (VersionLess(a, b) <==> a.patch < b.patch)
    ensures a.major == b.major && a.minor == b.minor && a.patch == b.patch ==>
              (VersionLess(a, b) <==> StrLess(a.suffix, b.suffix))
  {
    StrLessTotal(a.suffix, b.suffix);
    hide StrLess;
  }

  // ----- one command

  /** An install is accepted exactly for a checked candidate of a new identity; the entry holds the signed
      manifest, disabled, and awaits review when it has capabilities. */
  lemma InstallExact(r: Registry, c: Candidate)
    ensures var (r', code) := Step(r, Install(c));
            && (code == Some(CandidateInvalid) <==> !Checked(c))
            && (Checked(c) ==>
                  var (m, sha) := c.envelope.value;
                  var id := NameOf(m);
                  && (code.None? <==> id !in r)
                  && (code == Some(IdentityRevoked) <==> id in r && r[id].revoked)
                  && (code == Some(AlreadyInstalled) <==> id in r && !r[id].revoked)
                  && (code.None? ==>
                        id in r' && r'.Keys == r.Keys + {id}
                        && r'[id].manifest == m && r'[id].manifestSha256 == sha
                        && !r'[id].enabled && !r'[id].revoked && (r'[id].reviewRequired <==> m.capabilities != [])))
            && (code.Some? ==> r' == r)
            && (forall k :: k in r ==> k in r' && r'[k] == r[k])
  {
  }

  /** An update is accepted exactly for a checked candidate of the same identity, installed, not revoked and
      of a lower version; changed capabilities disable the extension and ask for review again. */
  lemma UpdateExact(r: Registry, id: string, c: Candidate)
    ensures var (r', code) := Step(r, Update(id, c));
            && (code == Some(NotInstalled) <==> id !in r)
            && (id in r ==>
                  && (code == Some(IdentityRevoked) <==> r[id].revoked)
                  && (!r[id].revoked ==>
                        && (code == Some(CandidateInvalid) <==> !Checked(c))
                        && (Checked(c) ==> UpdatesTo(r, id, c, r', code))))
            && (code.Some? ==> r' == r)
            && (forall k :: k in r && k != id ==> k in r' && r'[k] == r[k])
            && r'.Keys == r.Keys
  {
    hide VersionLess;
  }

  ghost predicate UpdatesTo(r: Registry, id: string, c: Candidate, r': Registry, code: Option<Code>)
    requires id in r && Checked(c)
  {
    var (m, sha) := c.envelope.value;
    var prior, same := r[id], NameOf(m) == id;
    && (code == Some(IdentityMismatch) <==> !same)
    && (code == Some(VersionNotNewer) <==> same && !VersionLess(prior.manifest.version, m.version))
    && (code.None? <==> same && VersionLess(prior.manifest.version, m.version))
    && (code.None? ==>
          && id in r' && r'[id].manifest == m && r'[id].manifestSha256 == sha && !r'[id].revoked
          && (r'[id].enabled <==> prior.enabled && m.capabilities == prior.manifest.capabilities)
          && (r'[id].reviewRequired <==> m.capabilities != prior.manifest.capabilities))
  }

  /** Enabling asks for an approval while a review is open; disabling and revoking always succeed on an
      installed extension. None of them touches another entry or the manifest. */
  lemma SwitchExact(r: Registry, id: string, approved: bool)
    ensures id !in r ==>
              forall c :: c in {Enable(id, approved), Disable(id), Revoke(id)} ==>
                Step(r, c) == (r, Some(NotInstalled))
    ensures id in r ==>
              var (r', code) := Step(r, Enable(id, approved));
              && (code == Some(ExtensionRevoked) <==> r[id].revoked)
              && (code == Some(ReviewRequired) <==> !r[id].revoked && r[id].reviewRequired && !approved)
              && (code.None? <==> !r[id].revoked && (r[id].reviewRequired ==> approved))
              && r' == if code.None?
                       then r[id := Installed(r[id].manifest, r[id].manifestSha256, true, r[id].revoked, false)]
                       else r
    ensures id in r ==>
              && Step(r, Disable(id)) ==
                 (r[id := Installed(r[id].manifest, r[id].manifestSha256, false, r[id].revoked, r[id].reviewRequired)],
                  None)
              && Step(r, Revoke(id)) ==
                 (r[id := Installed(r[id].manifest, r[id].manifestSha256, false, true, false)], None)
  {
  }

  // ----- over runs

  /** The command carries a checked candidate for this very entry. */
  ghost predicate Brings(c: Command, id: string, e: Installed) {
    && (c.Install? || (c.Update? && c.identity == id))
    && Checked(c.candidate) && c.candidate.envelope.value == (e.manifest, e.manifestSha256)
    && NameOf(e.manifest) == id
  }

  lemma StepBrings(r: Registry, c: Command, id: string)
    requires id in Step(r, c).0
    ensures (Step(r, c).1.None? && Brings(c, id, Step(r, c).0[id]))
            || (id in r && Step(r, c).0[id].manifest == r[id].manifest
                && Step(r, c).0[id].manifestSha256 == r[id].manifestSha256)
  {
    hide VersionLess;
  }

  /** Every manifest in a reachable registry was brought by an accepted command whose candidate was signed
      and whose two digests agreed. */
  lemma {:induction false} ManifestsWereChecked(commands: seq<Command>, id: string) returns (i: nat)
    requires id in Run(map[], commands)
    ensures i < |commands| && Step(Run(map[], commands[..i]), commands[i]).1.None?
    ensures Brings(commands[i], id, Run(map[], commands)[id])
  {
    hide Step, Checked;
    var n := |commands| - 1;
    var before := Run(map[], commands[..n]);
    StepBrings(before, commands[n], id);
    if Step(before, commands[n]).1.None? && Brings(commands[n], id, Run(map[], commands)[id]) {
      i := n;
    } else {
      i := ManifestsWereChecked(commands[..n], id);
      assert commands[..n][..i] == commands[..i];
    }
  }
}
