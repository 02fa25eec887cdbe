/** The guarantees of `evaluate_policy` itself, under conditions a caller can check on the raw request. */
module PolicyGuarantees {
  import opened Wrappers
  import opened Text
  import opened Paths
  import opened PolicyScope
  import opened PolicyEngine
  import opened PolicyTheorems
  import PolicyOrder
  import PolicyCeiling

  // ----- what an evaluation reads

  /** The roots the profile makes its base prefixes. */
  function RootsRead(profile: Profile, c: Context): seq<string> {
    if profile.filesystemScope == "project" then [c.projectRoot]
    else if profile.filesystemScope == "current_account" then c.currentAccountRoots
    else if profile.filesystemScope == "sandbox" then [c.sandboxRoot]
    else []
  }

  /** The destinations the profile makes its base destinations. */
  function DestinationsRead(profileId: string, profile: Profile, c: Context): seq<string> {
    if profile.networkScope != "allowlist" then []
    else if profileId == "isolated_untrusted" then c.grantDestinations
    else c.projectDestinations
  }

  function LeasesRead(profile: Profile, c: Context): seq<string> {
    if profile.credentialMode == "none" then [] else c.availableSecretLeaseIds
  }

  ghost predicate All(items: seq<string>, good: string -> bool) {
    forall x :: x in items ==> good(x)
  }

  /** The paths of the request's profile and of the overlays, and its leases, all satisfy the predicates. */
  ghost predicate Draws(request: Request, config: Config, overlays: seq<Overlay>, path: string -> bool,
      lease: string -> bool)
  {
    && (forall o :: o in overlays && o.pathPrefixes.Some? ==> All(o.pathPrefixes.value, path))
    && var id := Strip(request.binding.accessProfileId);
       (id in config.profiles ==>
          All(RootsRead(config.profiles[id], request.context), path)
          && All(LeasesRead(config.profiles[id], request.context), lease))
  }

  ghost predicate DrawsHosts(request: Request, config: Config, host: string -> bool) {
    var id := Strip(request.binding.accessProfileId);
    id in config.profiles ==> All(DestinationsRead(id, config.profiles[id], request.context), host)
  }

  /** A path whose normal form has a normal form that, by `NormalizeIdempotentIff`, is its own: no outer
      whitespace, and a drive-like start lower case and delimited. A refused path is tidy. */
  predicate Tidy(path: string) {
    Normalize(path).Ok? ==>
      var stored := Normalize(path).value;
      Normalize(stored).Ok? && Trimmed(Normalize(stored).value) && DriveSettled(Normalize(stored).value)
  }

  predicate NotStar(lease: string) {
    Strip(lease) != ANY
  }

  predicate Flat(host: string) {
    !NestedWildcard(HostForm(host))
  }

  lemma StrippedAgain(s: string)
    ensures Strip(Strip(s)) == Strip(s)
  {
    StripFixed(s);
    StripFixed(Strip(s));
  }

  lemma TidySettles(path: string)
    requires Tidy(path) && Normalize(Strip(path)).Ok?
    ensures Settled(Normalize, [Normalize(Strip(path)).value])
  {
    hide Paths.NormalizeText, Trimmed, DriveSettled, Strip;
    StrippedAgain(path);
    var stored := Normalize(path).value;
    assert Normalize(Strip(path)) == Normalize(path);
    NormalizeIdempotentIff(stored);
  }

  lemma TidyListSettles(raw: seq<string>)
    requires StringList(raw).Ok? && NormalizeAll(Normalize, StringList(raw).value).Ok?
    requires All(raw, Tidy)
    ensures Settled(Normalize, NormalizeAll(Normalize, StringList(raw).value).value)
  {
    hide Strip, Normalize, Tidy;
    var items := StringList(raw).value;
    var normal := NormalizeAll(Normalize, items).value;
    forall q | q in normal ensures Settled(Normalize, [q]) {
      var i :| 0 <= i < |normal| && normal[i] == q;
      assert items[i] in items && raw[i] in raw;
      TidySettles(raw[i]);
    }
    assert forall q :: q in normal ==> q in [q];
  }

  lemma TidyTextSettles(raw: string)
    requires PolicyEngine.NormalizeText(Normalize, raw).Ok? && Tidy(raw)
    ensures Settled(Normalize, PolicyEngine.NormalizeText(Normalize, raw).value)
  {
    hide Strip, Normalize, Tidy;
    var s := Strip(raw);
    assert [s][0] in [s];
    TidySettles(raw);
  }

  lemma BasePathsSettle(profile: Profile, context: Context)
    requires All(RootsRead(profile, context), Tidy) && BasePaths(Normalize, profile, context).Ok?
    ensures Settled(Normalize, BasePaths(Normalize, profile, context).value)
  {
    hide Tidy, Normalize, NormalizeAll, StringList, PolicyEngine.NormalizeText;
    if profile.filesystemScope == "project" {
      assert context.projectRoot in RootsRead(profile, context);
      TidyTextSettles(context.projectRoot);
    } else if profile.filesystemScope == "current_account" {
      TidyListSettles(context.currentAccountRoots);
    } else if profile.filesystemScope == "sandbox" {
      assert context.sandboxRoot in RootsRead(profile, context);
      TidyTextSettles(context.sandboxRoot);
    }
  }

  lemma SortedListMembers(raw: seq<string>, x: string)
    requires SortedList(raw).Ok? && x in SortedList(raw).value
    ensures exists r :: r in raw && x == Strip(r)
  {
    hide Strip;
    var items := StringList(raw).value;
    var i :| 0 <= i < |items| && items[i] == x;
    assert raw[i] in raw;
  }

  lemma NoStarInBase(profile: Profile, context: Context)
    requires All(LeasesRead(profile, context), NotStar) && BaseLeases(profile, context).Ok?
    ensures ANY !in BaseLeases(profile, context).value
  {
    hide Strip, SortedList;
    if profile.credentialMode != "none" && ANY in BaseLeases(profile, context).value {
      SortedListMembers(context.availableSecretLeaseIds, ANY);
    }
  }

  lemma FlatBase(profileId: string, profile: Profile, context: Context)
    requires All(DestinationsRead(profileId, profile, context), Flat) &&
             BaseDestinations(profileId, profile, context).Ok?
    ensures PolicyCeiling.PlainHosts(BaseDestinations(profileId, profile, context).value)
  {
    hide Strip, SortedList, NestedWildcard;
    var base := BaseDestinations(profileId, profile, context).value;
    forall item | item in base ensures !NestedWildcard(HostForm(item)) {
      if profile.networkScope == "unrestricted" {
        AnyForm();
        AnyIsFlat();
      } else {
        var raw := DestinationsRead(profileId, profile, context);
        SortedListMembers(raw, item);
        var r :| r in raw && item == Strip(r);
        StrippedAgain(r);
        assert Flat(r) && HostForm(item) == HostForm(r);
      }
    }
  }

  lemma AnyIsFlat()
    ensures !NestedWildcard(ANY)
  {
  }

  lemma BaseOfSetting(request: Request, config: Config)
    requires Settle(Normalize, request, config).Ok?
    ensures var s, id := Settle(Normalize, request, config).value, Strip(request.binding.accessProfileId);
            && id in config.profiles && s.profileId == id && s.profile == config.profiles[id]
            && BasePaths(Normalize, s.profile, request.context) == Ok(s.base.paths)
            && BaseDestinations(s.profileId, s.profile, request.context) == Ok(s.base.destinations)
            && BaseLeases(s.profile, request.context) == Ok(s.base.leases)
  {
    hide WideningStep, BindingReasons, ProfileBudgets, BadRequestedBudget, ValidApproval, BlankBinding, Strip,
      BasePaths, BaseDestinations, BaseBrowsers, BaseLeases;
  }

  lemma DrawnIsOrdinary(request: Request, config: Config, overlays: seq<Overlay>)
    requires Draws(request, config, overlays, Tidy, NotStar)
    ensures OrdinaryBase(Normalize, request, config) && OrdinaryOverlays(Normalize, overlays)
  {
    hide Settle, BasePaths, BaseLeases, Settled, Normalize, All, Tidy, StringList, NormalizeAll, RootsRead,
      LeasesRead, Strip;
    if Settle(Normalize, request, config).Ok? {
      var s := Settle(Normalize, request, config).value;
      BaseOfSetting(request, config);
      BasePathsSettle(s.profile, request.context);
      NoStarInBase(s.profile, request.context);
    }
    forall o | o in overlays && ReadOverlay(Normalize, o).Ok? && ReadOverlay(Normalize, o).value.paths.Some?
      ensures Settled(Normalize, ReadOverlay(Normalize, o).value.paths.value)
    {
      TidyListSettles(o.pathPrefixes.value);
    }
  }

  // ----- the guarantees

  ghost predicate Includes(more: seq<Overlay>, few: seq<Overlay>) {
    forall o :: o in few ==> o in more
  }

  /** A path that a profile can be rooted at. */
  predicate CanRoot(path: string) {
    Strip(path) != "" && Normalize(path).Ok?
  }

  /** Base prefixes come from roots. */
  lemma BaseHasRoot(profile: Profile, context: Context)
    requires BasePaths(Normalize, profile, context).Ok? && BasePaths(Normalize, profile, context).value != []
    ensures exists p :: p in RootsRead(profile, context) && CanRoot(p)
  {
    hide Strip, Normalize;
    var roots := RootsRead(profile, context);
    var stripped := StripAll(roots);
    assert roots != [];
    StrippedNormal(roots[0]);
    assert stripped[0] in stripped && [Strip(roots[0])][0] in [Strip(roots[0])];
    assert roots[0] in roots && CanRoot(roots[0]);
  }

  lemma StrippedNormal(path: string)
    ensures Normalize(Strip(path)) == Normalize(path)
  {
    hide Paths.NormalizeText;
    StrippedAgain(path);
  }

  /** The paths a filesystem effect names as its target. */
  ghost predicate DrawsTarget(request: Request, target: string -> bool) {
    request.effect.domain == "filesystem" && request.effect.target.Some? ==> target(request.effect.target.value)
  }

  /** Adding overlays never relaxes the outcome of a request whose paths are tidy and whose leases do not
      name "*". Only a refused target can be denied instead, when an overlay leaves no prefix. */
  lemma OverlaysNeverRelax(request: Request, config: Config, more: seq<Overlay>)
    requires Draws(request, config, more, Tidy, NotStar) && Includes(more, request.overlays)
    ensures NarrowedOutcome(Normalize, request, config, Evaluate(Normalize, request.(overlays := more), config),
                            Evaluate(Normalize, request, config))
  {
    hide Evaluate, NarrowedOutcome, OrdinaryBase, OrdinaryOverlays, Draws;
    DrawnIsOrdinary(request, config, more);
    AddingOverlaysNeverRelaxes(Normalize, request, config, more);
  }

  /** The verdict on such a request is the same for every order of its overlays, sorted or not. */
  lemma OrderNeverMatters(request: Request, config: Config, anyOrder: seq<Overlay>)
    requires Draws(request, config, request.overlays, Tidy, NotStar)
    requires forall o :: o in request.overlays ==> ValidKey(o)
    requires forall o :: o in anyOrder <==> o in request.overlays
    ensures PolicyOrder.SameVerdict(Normalize, Evaluate(Normalize, request, config),
                                    EvaluateInOrder(Normalize, request, config, anyOrder))
  {
    hide Evaluate, EvaluateInOrder, PolicyOrder.SameVerdict, OrdinaryBase, OrdinaryOverlays, Draws, ValidKey;
    DrawnIsOrdinary(request, config, request.overlays);
    PolicyOrder.LayerSortIrrelevant(Normalize, request, config, anyOrder);
  }

  /** The effective scope and budgets lie under the profile's, and only a target the base scope admits is
      granted. */
  ghost predicate UnderCeiling(request: Request, config: Config) {
    Settle(Normalize, request, config).Ok? && Evaluate(Normalize, request, config).Ok? &&
    var s, d := Settle(Normalize, request, config).value, Evaluate(Normalize, request, config).value;
    && PolicyCeiling.UnderBase(Normalize, d.scope, s.base)
    && (forall f :: f in d.budgets ==> f in s.ceiling && d.budgets[f] <= s.ceiling[f])
    && (d.grant.Some? ==> PolicyCeiling.TargetAdmitted(Normalize, request.effect, s.base))
  }

  /** Whatever overlays and widening such a request carries, with no nested wildcard among the
      destinations its profile reads, nothing climbs above the profile's ceiling. */
  lemma CeilingHolds(request: Request, config: Config)
    requires Draws(request, config, request.overlays, Tidy, NotStar) && DrawsHosts(request, config, Flat)
    requires Evaluate(Normalize, request, config).Ok?
    ensures UnderCeiling(request, config)
  {
    hide Settle, Evaluate, OrdinaryBase, OrdinaryOverlays, Draws, PolicyCeiling.UnderBase, PolicyCeiling.TargetAdmitted,
      PolicyCeiling.PlainHosts, BaseDestinations, All, DestinationsRead, Strip;
    DrawnIsOrdinary(request, config, request.overlays);
    if Settle(Normalize, request, config).Ok? {
      var s := Settle(Normalize, request, config).value;
      BaseOfSetting(request, config);
      FlatBase(s.profileId, s.profile, request.context);
    }
    PolicyCeiling.NothingExceedsTheCeiling(Normalize, request, config);
  }
}
