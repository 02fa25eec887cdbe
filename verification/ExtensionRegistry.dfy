/** `ExtensionRegistryV2`: installing, updating, enabling, disabling and revoking signed extensions. */
module ExtensionRegistry {
  import opened Wrappers
  import opened Text

  datatype Version = Version(major: nat, minor: nat, patch: nat, suffix: string)

  /** The order of Python tuples of three numbers and a text. */
  predicate VersionLess(a: Version, b: Version) {
    || a.major < b.major
    || (a.major == b.major
        && (a.minor < b.minor
            || (a.minor == b.minor
                && (a.patch < b.patch || (a.patch == b.patch && StrLess(a.suffix, b.suffix))))))
  }

  lemma VersionLessTransitive(a: Version, b: Version, c: Version)
    requires VersionLess(a, b) && VersionLess(b, c)
    ensures VersionLess(a, c)
  {
    if a.suffix != "" && StrLess(a.suffix, b.suffix) && StrLess(b.suffix, c.suffix) {
      StrLessTransitive(a.suffix, b.suffix, c.suffix);
    }
  }

  /** A manifest as read from its payload; the capabilities are sorted and without repetition. */
  datatype Manifest = Manifest(
    extensionType: string, identifier: string, publisher: string, version: Version,
    codeSha256: string, capabilities: seq<string>, entryPoint: string, testsSha256: string)
  {
    function Identity(): string {
      publisher + "/" + identifier
    }
  }

  /** What the signature check and the payload reader make of an envelope: None when either refuses it. */
  type Envelope = Option<(Manifest, string)>

  datatype Candidate = Candidate(envelope: Envelope, actualCode: string, actualTests: string)

  datatype Code =
    | NotInstalled | IdentityRevoked | AlreadyInstalled | CandidateInvalid | IdentityMismatch | VersionNotNewer
    | ExtensionRevoked | ReviewRequired

  /** `_verify_candidate`. */
  function VerifyCandidate(c: Candidate): Envelope {
    if c.envelope.None? then None
    else
      var m := c.envelope.value.0;
      if m.codeSha256 != c.actualCode || m.testsSha256 != c.actualTests then None else c.envelope
  }

  datatype Installed = Installed(manifest: Manifest, manifestSha256: string, enabled: bool, revoked: bool,
      reviewRequired: bool)

  // ----- the state machine

  type Registry = map<string, Installed>

  datatype Command =
    | Install(candidate: Candidate)
    | Update(identity: string, candidate: Candidate)
    | Enable(identity: string, capabilitiesApproved: bool)
    | Disable(identity: string)
    | Revoke(identity: string)

  function InstallStep(r: Registry, c: Candidate): (Registry, Option<Code>) {
    match VerifyCandidate(c)
    case None => (r, Some(CandidateInvalid))
    case Some((m, sha)) =>
      if m.Identity() in r then (r, Some(if r[m.Identity()].revoked then IdentityRevoked else AlreadyInstalled))
      else (r[m.Identity() := Installed(m, sha, false, false, m.capabilities != [])], None)
  }

  function UpdateStep(r: Registry, identity: string, c: Candidate): (Registry, Option<Code>) {
    if identity !in r then (r, Some(NotInstalled))
    else
      var prior := r[identity];
      if prior.revoked then (r, Some(IdentityRevoked))
      else match VerifyCandidate(c)
        case None => (r, Some(CandidateInvalid))
        case Some((m, sha)) =>
          if m.Identity() != identity then (r, Some(IdentityMismatch))
          else if !VersionLess(prior.manifest.version, m.version) then (r, Some(VersionNotNewer))
          else
            var changed := m.capabilities != prior.manifest.capabilities;
            (r[identity := Installed(m, sha, prior.enabled && !changed, false, changed)], None)
  }

  function EnableStep(r: Registry, identity: string, approved: bool): (Registry, Option<Code>) {
    if identity !in r then (r, Some(NotInstalled))
    else
      var e := r[identity];
      if e.revoked then (r, Some(ExtensionRevoked))
      else if e.reviewRequired && !approved then (r, Some(ReviewRequired))
      else (r[identity := e.(reviewRequired := false, enabled := true)], None)
  }

  function Step(r: Registry, c: Command): (Registry, Option<Code>) {
    match c
    case Install(candidate) => InstallStep(r, candidate)
    case Update(identity, candidate) => UpdateStep(r, identity, candidate)
    case Enable(identity, approved) => EnableStep(r, identity, approved)
    case Disable(identity) =>
      if identity !in r then (r, Some(NotInstalled)) else (r[identity := r[identity].(enabled := false)], None)
    case Revoke(identity) =>
      if identity !in r then (r, Some(NotInstalled))
      else (r[identity := r[identity].(enabled := false, revoked := true, reviewRequired := false)], None)
  }

  function Run(r: Registry, commands: seq<Command>): Registry {
    if commands == [] then r else Step(Run(r, commands[..|commands| - 1]), commands[|commands| - 1]).0
  }

  // ----- the mutable registry

  class InstalledExtension {
    var manifest: Manifest
    var manifestSha256: string
    var enabled: bool
    var revoked: bool
    var reviewRequired: bool

    constructor (m: Manifest, sha: string, enabled: bool, revoked: bool, reviewRequired: bool)
      ensures Value() == Installed(m, sha, enabled, revoked, reviewRequired)
    {
      this.manifest, this.manifestSha256 := m, sha;
      this.enabled, this.revoked, this.reviewRequired := enabled, revoked, reviewRequired;
    }

    function Value(): Installed
      reads this
    {
      Installed(manifest, manifestSha256, enabled, revoked, reviewRequired)
    }
  }

  class ExtensionRegistryV2 {
    var installed: map<string, InstalledExtension>

    constructor ()
      ensures Valid() && View() == map[]
    {
      installed := map[];
    }

    /** Different identities are different objects, so that a change in place touches one entry. */
    ghost predicate Valid()
      reads this
    {
      forall a, b :: a in installed && b in installed && a != b ==> installed[a] != installed[b]
    }

    ghost function View(): Registry
      reads this, installed.Values
    {
      map k | k in installed :: installed[k].Value()
    }

    method InstallExtension(c: Candidate) returns (code: Option<Code>)
      requires Valid()
      modifies this
      ensures Valid() && (View(), code) == InstallStep(old(View()), c)
    {
      var verified := VerifyCandidate(c);
      if verified.None? {
        return Some(CandidateInvalid);
      }
      var (m, sha) := verified.value;
      if m.Identity() in installed {
        return Some(if installed[m.Identity()].revoked then IdentityRevoked else AlreadyInstalled);
      }
      var extension := new InstalledExtension(m, sha, false, false, m.capabilities != []);
      installed := installed[m.Identity() := extension];
      assert View() == old(View())[m.Identity() := extension.Value()];
      code := None;
    }

    method UpdateExtension(identity: string, c: Candidate) returns (code: Option<Code>)
      requires Valid()
      modifies this
      ensures Valid() && (View(), code) == UpdateStep(old(View()), identity, c)
    {
      hide VersionLess;
      if identity !in installed {
        return Some(NotInstalled);
      }
      var prior := installed[identity];
      if prior.revoked {
        return Some(IdentityRevoked);
      }
      var verified := VerifyCandidate(c);
      if verified.None? {
        return Some(CandidateInvalid);
      }
      var (m, sha) := verified.value;
      if m.Identity() != identity {
        return Some(IdentityMismatch);
      }
      if !VersionLess(prior.manifest.version, m.version) {
        return Some(VersionNotNewer);
      }
      var capabilitiesChanged := m.capabilities != prior.manifest.capabilities;
      var updated := new InstalledExtension(m, sha, prior.enabled && !capabilitiesChanged, false, capabilitiesChanged);
      installed := installed[identity := updated];
      assert View() == old(View())[identity := updated.Value()];
      code := None;
    }

    method EnableExtension(identity: string, capabilitiesApproved: bool) returns (code: Option<Code>)
      requires Valid()
      modifies installed.Values
      ensures Valid() && installed == old(installed)
      ensures (View(), code) == EnableStep(old(View()), identity, capabilitiesApproved)
    {
      if identity !in installed {
        return Some(NotInstalled);
      }
      var extension := installed[identity];
      if extension.revoked {
        return Some(ExtensionRevoked);
      }
      if extension.reviewRequired {
        if !capabilitiesApproved {
          return Some(ReviewRequired);
        }
        extension.reviewRequired := false;
      }
      extension.enabled := true;
      assert View() == old(View())[identity := extension.Value()];
      code := None;
    }

    method DisableExtension(identity: string) returns (code: Option<Code>)
      requires Valid()
      modifies installed.Values
      ensures Valid() && installed == old(installed)
      ensures (View(), code) == Step(old(View()), Disable(identity))
    {
      if identity !in installed {
        return Some(NotInstalled);
      }
      var extension := installed[identity];
      extension.enabled := false;
      assert View() == old(View())[identity := extension.Value()];
      code := None;
    }

    method RevokeExtension(identity: string) returns (code: Option<Code>)
      requires Valid()
      modifies installed.Values
      ensures Valid() && installed == old(installed)
      ensures (View(), code) == Step(old(View()), Revoke(identity))
    {
      if identity !in installed {
        return Some(NotInstalled);
      }
      var extension := installed[identity];
      extension.enabled := false;
      extension.revoked := true;
      extension.reviewRequired := false;
      assert View() == old(View())[identity := extension.Value()];
      code := None;
    }
  }
}
