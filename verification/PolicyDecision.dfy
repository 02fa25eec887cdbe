/** What `evaluate_policy` decides, written out over the raw request: which rule each reason code stands
    for, when approval is needed, and what the effective scope and budgets are. */
module PolicyDecision {
  import opened Wrappers
  import opened Text
  import opened Paths
  import opened PolicyScope
  import opened PolicyEngine
  import opened OverlayFold
  import opened PolicyTheorems
  import Sorting

  // ----- the parts of an evaluation

  /** The profile the request names. */
  function ProfileId(request: Request): string {
    Strip(request.binding.accessProfileId)
  }

  function Base(norm: Normaliser, request: Request, config: Config): Result<Scope> {
    if ProfileId(request) in config.profiles
    then BaseScope(norm, ProfileId(request), config.profiles[ProfileId(request)], request.context)
    else Refused
  }

  /** The overlays as read, whatever their order. */
  ghost predicate ReadOf(norm: Normaliser, overlays: seq<Overlay>, ns: seq<Narrowing>) {
    && (forall o :: o in overlays ==> ReadOverlay(norm, o).Ok?)
    && (forall n :: n in ns <==> exists o :: o in overlays && ReadOverlay(norm, o) == Ok(n))
  }

  lemma EvaluationParts(norm: Normaliser, request: Request, config: Config)
      returns (s: Setting, ns: seq<Narrowing>, f: Folded)
    requires Evaluate(norm, request, config).Ok?
    ensures Settle(norm, request, config) == Ok(s) && ReadOf(norm, request.overlays, ns)
    ensures FoldNarrowings(norm, Start(s), ns) == Ok(f)
    ensures Evaluate(norm, request, config) == Conclude(norm, request, s, f)
  {
    hide Settle, FoldOverlays, ReadAll, FoldNarrowings, ReadOverlay, Conclude, ValidKey, KeyLess, Start;
    Sorting.SortBySpec(KeyLess, request.overlays);
    var ordered := Sorting.SortBy(KeyLess, request.overlays);
    s := Settle(norm, request, config).value;
    FoldReads(norm, Start(s), ordered);
    ReadAllMembers(norm, ordered);
    ns := ReadAll(norm, ordered).value;
    f := FoldNarrowings(norm, Start(s), ns).value;
  }

  /** The fields a setting is made of. */
  lemma SettingParts(norm: Normaliser, request: Request, config: Config, s: Setting)
    requires Settle(norm, request, config) == Ok(s)
    ensures var b := request.binding;
            && s.profileId == ProfileId(request) && s.profileId in config.profiles
            && s.profile == config.profiles[s.profileId] && Base(norm, request, config) == Ok(s.base)
            && s.capabilityId == Strip(b.capabilityId) && s.toolId == Strip(b.toolId)
            && s.risk == CapabilityOf(config, s.capabilityId).risk
            && ProfileBudgets(s.profileId, config) == Ok(s.ceiling)
            && s.budgets == ClampBudgets(s.ceiling, request.requestedBudgets)
            && s.approved == ValidApproval(request.approval).0
            && WideningStep(norm, s.base, request.widening).Ok?
            && s.widened == WideningStep(norm, s.base, request.widening).value.0
            && s.reasons ==
               BindingReasons(config, s.capabilityId, s.toolId, Strip(b.actorId), request.effect)
               + When(BadRequestedBudget(s.ceiling, request.requestedBudgets), "invalid_budget")
               + ValidApproval(request.approval).1 + WideningStep(norm, s.base, request.widening).value.1
  {
    hide BaseScope, WideningStep, BindingReasons, ProfileBudgets, BadRequestedBudget, ValidApproval, BlankBinding,
      Strip, CapabilityOf, ClampBudgets, When;
  }

  // ----- reading raw lists

  /** One of the raw entries reads as `x`. */
  ghost predicate Reads(raw: seq<string>, x: string) {
    exists r :: r in raw && Strip(r) == x
  }

  lemma StripAllReads(raw: seq<string>, x: string)
    ensures x in StripAll(raw) <==> Reads(raw, x)
  {
    hide Strip;
    if Reads(raw, x) {
      var r :| r in raw && Strip(r) == x;
      var i :| 0 <= i < |raw| && raw[i] == r;
      assert StripAll(raw)[i] == x;
    }
  }

  lemma OverlayFields(norm: Normaliser, o: Overlay, n: Narrowing)
    requires ReadOverlay(norm, o) == Ok(n)
    ensures n.capabilities == Elements(StripAll(o.denyCapabilities)) && n.tools == Elements(StripAll(o.denyTools))
    ensures n.forceDeny == o.forceDeny && n.maxBudgets == o.maxBudgets && n.approvalPolicy == o.approvalPolicy
  {
    hide OptionalPaths, OptionalHosts, OptionalList, Elements, StripAll;
  }

  // ----- the rules behind the reason codes

  ghost predicate BindingBroken(request: Request, config: Config, code: string) {
    var id, tool, actor :=
      Strip(request.binding.capabilityId), Strip(request.binding.toolId), Strip(request.binding.actorId);
    var known := id in config.capabilities;
    || (code == "unknown_capability" && !known)
    || (code == "tool_not_registered_for_capability" && !(known && tool in config.capabilities[id].tools))
    || (code == "capability_effect_mismatch"
        && request.effect.domain != if known then config.capabilities[id].domain else "unknown")
    || (code == "wrong_actor" && known && config.capabilities[id].actor != "" && actor != config.capabilities[id].actor)
  }

  ghost predicate OverlayDenies(request: Request, code: string) {
    || (code == "capability_denied_by_overlay"
        && exists o :: o in request.overlays && Reads(o.denyCapabilities, Strip(request.binding.capabilityId)))
    || (code == "tool_denied_by_overlay"
        && exists o :: o in request.overlays && Reads(o.denyTools, Strip(request.binding.toolId)))
    || (code == "force_deny" && exists o :: o in request.overlays && o.forceDeny)
  }

  ghost predicate BadLimit(limits: Budgets) {
    exists f :: f in limits && (f !in BUDGET_FIELDS || limits[f] < 0)
  }

  ghost predicate BudgetBroken(request: Request, code: string) {
    || (code == "invalid_budget"
        && exists f :: f in BUDGET_FIELDS && f in request.requestedBudgets && request.requestedBudgets[f] < 0)
    || (code == "invalid_overlay_budget" && exists o :: o in request.overlays && BadLimit(o.maxBudgets))
  }

  /** A valid approval: granted by the owner or by an organization policy, and identified. */
  ghost predicate Trusted(a: Approval) {
    a.approved && (a.source == "owner" || a.source == "organization_policy") && Strip(a.approvalId) != ""
  }

  ghost predicate BadSource(a: Approval) {
    a.approved && a.source != "owner" && a.source != "organization_policy"
  }

  ghost predicate Unidentified(a: Approval) {
    a.approved && (a.source == "owner" || a.source == "organization_policy") && Strip(a.approvalId) == ""
  }

  ghost predicate Restores(w: Widening) {
    w.restorePaths != [] || w.restoreDestinations != [] || w.restoreBrowsers != [] || w.restoreLeases != []
  }

  /** The normalised path lies inside one of the prefixes. */
  ghost predicate Inside(norm: Normaliser, path: string, prefixes: seq<string>) {
    norm(path).Ok? && Admits(norm, norm(path).value, prefixes)
  }

  /** Some restored item lies outside the base scope. */
  ghost predicate Exceeds(norm: Normaliser, w: Widening, base: Scope) {
    || (exists p :: p in w.restorePaths && !Inside(norm, NormalOf(norm, Strip(p)), base.paths))
    || (exists h :: h in w.restoreDestinations && !DestinationAllowed(Strip(h), base.destinations))
    || (exists b :: b in w.restoreBrowsers && ANY !in base.browsers && Strip(b) !in base.browsers)
    || (exists l :: l in w.restoreLeases && Strip(l) !in base.leases)
  }

  ghost predicate ApprovalBroken(norm: Normaliser, request: Request, base: Scope, code: string) {
    var a, w := request.approval, request.widening;
    || (code == "untrusted_authority_source" && (BadSource(a) || (Restores(w) && BadSource(w.approval))))
    || (code == "approval_identity_missing" && (Unidentified(a) || (Restores(w) && Unidentified(w.approval))))
    || (code == "explicit_widening_not_approved" && Restores(w) && !Trusted(w.approval))
    || (code == "widening_exceeds_profile_ceiling" && Restores(w) && Trusted(w.approval) && Exceeds(norm, w, base))
  }

  ghost predicate FilesystemBroken(norm: Normaliser, profile: Profile, effect: Effect, scope: Scope, code: string) {
    || (code == "filesystem_action_denied" && effect.action !in profile.filesystemActions)
    || (code == "path_outside_effective_scope"
        && !(effect.target.Some? && Inside(norm, effect.target.value, scope.paths)))
  }

  ghost predicate ProcessBroken(profile: Profile, action: string, code: string) {
    if action == "elevation" then
      code == "elevation_denied" && profile.elevation != "interactive_only" && profile.elevation != "preconfigured"
    else
      && code == "process_action_denied"
      && !(action == "finite_command" && "finiteCommands" in profile.processFlags)
      && !(action == "interactive_pty" && "interactivePty" in profile.processFlags)
      && !(action == "package" && "packages" in profile.processFlags)
      && !(action == "service" && "services" in profile.processFlags)
  }

  /** The target of an effect that is not a path; a missing one reads as the empty text. */
  function NameOf(effect: Effect): string {
    match effect.target
    case Some(t) => t
    case None => ""
  }

  ghost predicate NetworkBroken(profile: Profile, context: Context, effect: Effect, scope: Scope, code: string) {
    || (code == "network_destination_denied" && !DestinationAllowed(NameOf(effect), scope.destinations))
    || (code == "private_network_denied" && context.privateNetwork && !profile.privateAddresses)
    || (code == "network_listen_denied" && effect.action == "listen" && !profile.listen)
  }

  ghost predicate BrowserBroken(profile: Profile, context: Context, effect: Effect, scope: Scope, code: string) {
    || (code == "browser_profile_denied" && ANY !in scope.browsers && NameOf(effect) !in scope.browsers)
    || (code == "authenticated_browser_denied" && context.authenticatedBrowser && !profile.authenticatedProfiles)
  }

  ghost predicate SecretBroken(profile: Profile, context: Context, effect: Effect, scope: Scope, code: string) {
    || (code == "secret_lease_denied" && (profile.credentialMode == "none" || NameOf(effect) !in scope.leases))
    || (code == "raw_secret_reveal_denied" && context.rawReveal)
  }

  /** The rules of the effect's own domain. */
  ghost predicate EffectBroken(norm: Normaliser, request: Request, profile: Profile, scope: Scope, code: string) {
    var effect, context := request.effect, request.context;
    if effect.domain == "filesystem" then FilesystemBroken(norm, profile, effect, scope, code)
    else if effect.domain == "process" then ProcessBroken(profile, effect.action, code)
    else if effect.domain == "network" then NetworkBroken(profile, context, effect, scope, code)
    else if effect.domain == "browser" then BrowserBroken(profile, context, effect, scope, code)
    else if effect.domain == "secret" then SecretBroken(profile, context, effect, scope, code)
    else if effect.domain == "sandbox" then
      code == "sandbox_profile_required" && !(ProfileId(request) == "isolated_untrusted" && profile.sandboxed)
    else code == "unknown_effect_domain"
  }

  /** The rule the code stands for is broken. */
  ghost predicate Broken(norm: Normaliser, request: Request, config: Config, scope: Scope, code: string) {
    ProfileId(request) in config.profiles && Base(norm, request, config).Ok? &&
    (|| BindingBroken(request, config, code)
     || OverlayDenies(request, code)
     || BudgetBroken(request, code)
     || ApprovalBroken(norm, request, Base(norm, request, config).value, code)
     || EffectBroken(norm, request, config.profiles[ProfileId(request)], scope, code))
  }

  // ----- each group of rules

  lemma BindingCodes(request: Request, config: Config, code: string)
    ensures var b := request.binding;
            code in BindingReasons(config, Strip(b.capabilityId), Strip(b.toolId), Strip(b.actorId), request.effect)
            <==> BindingBroken(request, config, code)
  {
    hide Strip;
  }

  lemma DeniedByOverlays(norm: Normaliser, request: Request, s: Setting, ns: seq<Narrowing>, f: Folded)
    requires ReadOf(norm, request.overlays, ns) && FoldNarrowings(norm, Start(s), ns) == Ok(f)
    ensures Strip(request.binding.capabilityId) in f.deniedCapabilities <==>
            exists o :: o in request.overlays && Reads(o.denyCapabilities, Strip(request.binding.capabilityId))
    ensures Strip(request.binding.toolId) in f.deniedTools <==>
            exists o :: o in request.overlays && Reads(o.denyTools, Strip(request.binding.toolId))
    ensures f.forceDeny <==> exists o :: o in request.overlays && o.forceDeny
  {
    hide FoldNarrowings, ReadOverlay, Reads, Strip, StripAll;
    var c, t := Strip(request.binding.capabilityId), Strip(request.binding.toolId);
    FoldDenials(norm, Start(s), ns, c);
    FoldDenials(norm, Start(s), ns, t);
    forall o, n | o in request.overlays && ReadOverlay(norm, o) == Ok(n)
      ensures (c in n.capabilities <==> Reads(o.denyCapabilities, c)) && (t in n.tools <==> Reads(o.denyTools, t))
      ensures n.forceDeny == o.forceDeny
    {
      OverlayFields(norm, o, n);
      StripAllReads(o.denyCapabilities, c);
      StripAllReads(o.denyTools, t);
    }
    forall o | o in request.overlays ensures exists n :: n in ns && ReadOverlay(norm, o) == Ok(n) {
      assert ReadOverlay(norm, o).value in ns;
    }
  }

  lemma LimitsBroken(norm: Normaliser, request: Request, s: Setting, ns: seq<Narrowing>, f: Folded)
    requires ReadOf(norm, request.overlays, ns) && FoldNarrowings(norm, Start(s), ns) == Ok(f)
    requires s.budgets.Keys == BUDGET_FIELDS
    ensures f.badBudget <==> exists o :: o in request.overlays && BadLimit(o.maxBudgets)
  {
    hide FoldNarrowings, ReadOverlay, BUDGET_FIELDS;
    FoldBudgetKeys(norm, Start(s), ns);
    forall o, n | o in request.overlays && ReadOverlay(norm, o) == Ok(n)
      ensures BadOverlayBudget(s.budgets, n.maxBudgets) <==> BadLimit(o.maxBudgets)
    {
      OverlayFields(norm, o, n);
      SameBadLimit(s.budgets, n.maxBudgets);
    }
    forall o | o in request.overlays ensures exists n :: n in ns && ReadOverlay(norm, o) == Ok(n) {
      assert ReadOverlay(norm, o).value in ns;
    }
  }

  lemma SameBadLimit(budgets: Budgets, limits: Budgets)
    requires budgets.Keys == BUDGET_FIELDS
    ensures BadOverlayBudget(budgets, limits) <==> BadLimit(limits)
  {
    hide BUDGET_FIELDS;
    assert forall f :: f in budgets <==> f in budgets.Keys;
  }

  lemma BudgetFields(request: Request, config: Config, s: Setting)
    requires ProfileBudgets(s.profileId, config) == Ok(s.ceiling)
    requires s.budgets == ClampBudgets(s.ceiling, request.requestedBudgets)
    ensures s.ceiling.Keys == BUDGET_FIELDS && s.budgets.Keys == BUDGET_FIELDS
    ensures s.profileId in config.profileBudgets
    ensures forall f :: f in BUDGET_FIELDS ==>
              f in config.profileBudgets[s.profileId] && s.ceiling[f] == config.profileBudgets[s.profileId][f] >= 0
    ensures BadRequestedBudget(s.ceiling, request.requestedBudgets) <==>
            exists f :: f in BUDGET_FIELDS && f in request.requestedBudgets && request.requestedBudgets[f] < 0
  {
    hide BUDGET_FIELDS;
    assert s.budgets.Keys == s.ceiling.Keys;
    assert forall f :: f in s.ceiling <==> f in s.ceiling.Keys;
  }

  lemma ApprovalCodes(a: Approval, code: string)
    ensures ValidApproval(a).0 <==> Trusted(a)
    ensures code in ValidApproval(a).1 <==>
            (code == "untrusted_authority_source" && BadSource(a))
            || (code == "approval_identity_missing" && Unidentified(a))
  {
    hide Strip;
  }

  /** The engine's test of a path against prefixes, whenever it answers. */
  lemma {:induction false} AnyWithinAnswers(norm: Normaliser, path: string, prefixes: seq<string>)
    requires AnyWithin(norm, path, prefixes).Ok?
    ensures AnyWithin(norm, path, prefixes).value <==> Inside(norm, path, prefixes)
  {
    if prefixes != [] {
      var hit := PathWithin(norm, path, prefixes[0]).value;
      if !hit {
        AnyWithinAnswers(norm, path, prefixes[1..]);
      }
      assert forall p :: p in prefixes <==> p == prefixes[0] || p in prefixes[1..];
    }
  }

  lemma {:induction false} RestoredOutside(norm: Normaliser, base: seq<string>, items: seq<string>)
    requires RestorePaths(norm, base, items).Ok?
    ensures RestorePaths(norm, base, items).value.1 <==>
            exists p :: p in items && !Inside(norm, NormalOf(norm, p), base)
    ensures forall x :: x in RestorePaths(norm, base, items).value.0 <==>
            exists p :: p in items && norm(p) == Ok(x) && Inside(norm, x, base)
  {
    hide Inside, AnyWithin;
    if items != [] {
      RestoredOutside(norm, base, items[1..]);
      AnyWithinAnswers(norm, norm(items[0]).value, base);
      assert forall p :: p in items <==> p == items[0] || p in items[1..];
    }
  }

  /** What an approved widening adds. */
  lemma WideningAdds(norm: Normaliser, base: Scope, w: Widening)
    requires ReadWidening(norm, base, w).Ok?
    ensures var r := ReadWidening(norm, base, w).value;
            && (forall x :: x in r.paths <==>
                  exists p :: p in w.restorePaths && norm(Strip(p)) == Ok(x) && Inside(norm, x, base.paths))
            && (forall x :: x in r.destinations <==>
                  exists h :: h in w.restoreDestinations && Lower(Strip(h)) == x
                           && DestinationAllowed(Strip(h), base.destinations))
            && (forall x :: x in r.browsers <==> Reads(w.restoreBrowsers, x) && Holds(x, base.browsers))
            && (forall x :: x in r.leases <==> Reads(w.restoreLeases, x) && x in base.leases)
  {
    hide Inside, RestorePaths, Strip, StripAll, DestinationAllowed, Lower;
    RestoredOutside(norm, base.paths, StripAll(w.restorePaths));
    StrippedLists(w);
    assert forall p :: p in w.restorePaths ==> Reads(w.restorePaths, Strip(p));
    assert forall h :: h in w.restoreDestinations ==> Reads(w.restoreDestinations, Strip(h));
  }

  /** Whether it asks for more than the base scope. */
  lemma WideningExceeds(norm: Normaliser, base: Scope, w: Widening)
    requires ReadWidening(norm, base, w).Ok?
    ensures ReadWidening(norm, base, w).value.exceeded <==> Exceeds(norm, w, base)
  {
    hide Inside, RestorePaths, Strip, StripAll, DestinationAllowed, Lower, NormalOf;
    RestoredOutside(norm, base.paths, StripAll(w.restorePaths));
    StrippedSome(w.restorePaths, p => !Inside(norm, NormalOf(norm, p), base.paths));
    StrippedSome(w.restoreDestinations, h => !DestinationAllowed(h, base.destinations));
    StrippedSome(w.restoreBrowsers, b => !Holds(b, base.browsers));
    StrippedSome(w.restoreLeases, l => l !in base.leases);
  }

  lemma StrippedSome(raw: seq<string>, bad: string -> bool)
    ensures (exists x :: x in StripAll(raw) && bad(x)) <==> exists r :: r in raw && bad(Strip(r))
  {
    hide Strip, StripAll;
    forall x ensures x in StripAll(raw) <==> Reads(raw, x) {
      StripAllReads(raw, x);
    }
    assert forall r :: r in raw ==> Reads(raw, Strip(r));
  }

  lemma StrippedLists(w: Widening)
    ensures forall x :: x in StripAll(w.restorePaths) <==> Reads(w.restorePaths, x)
    ensures forall x :: x in StripAll(w.restoreDestinations) <==> Reads(w.restoreDestinations, x)
    ensures forall x :: x in StripAll(w.restoreBrowsers) <==> Reads(w.restoreBrowsers, x)
    ensures forall x :: x in StripAll(w.restoreLeases) <==> Reads(w.restoreLeases, x)
  {
    hide *;
    forall x
      ensures (x in StripAll(w.restorePaths) <==> Reads(w.restorePaths, x))
           && (x in StripAll(w.restoreDestinations) <==> Reads(w.restoreDestinations, x))
           && (x in StripAll(w.restoreBrowsers) <==> Reads(w.restoreBrowsers, x))
           && (x in StripAll(w.restoreLeases) <==> Reads(w.restoreLeases, x))
    {
      StripAllReads(w.restorePaths, x);
      StripAllReads(w.restoreDestinations, x);
      StripAllReads(w.restoreBrowsers, x);
      StripAllReads(w.restoreLeases, x);
    }
  }

  lemma WideningCodes(norm: Normaliser, base: Scope, w: Widening, code: string)
    requires WideningStep(norm, base, w).Ok?
    ensures code in WideningStep(norm, base, w).value.1 <==>
            Restores(w) &&
            (|| (code == "untrusted_authority_source" && BadSource(w.approval))
             || (code == "approval_identity_missing" && Unidentified(w.approval))
             || (code == "explicit_widening_not_approved" && !Trusted(w.approval))
             || (code == "widening_exceeds_profile_ceiling" && Trusted(w.approval) && Exceeds(norm, w, base)))
  {
    hide ReadWidening, Exceeds, Trusted, BadSource, Unidentified, ValidApproval;
    ApprovalCodes(w.approval, code);
    OneVerdict(w.approval);
    if Restores(w) && Trusted(w.approval) {
      WideningExceeds(norm, base, w);
    }
  }

  lemma OneVerdict(a: Approval)
    ensures Trusted(a) ==> !BadSource(a) && !Unidentified(a)
  {
    hide Strip;
  }

  lemma AuthorityCodes(norm: Normaliser, request: Request, base: Scope, code: string)
    requires WideningStep(norm, base, request.widening).Ok?
    ensures code in ValidApproval(request.approval).1 + WideningStep(norm, base, request.widening).value.1 <==>
            ApprovalBroken(norm, request, base, code)
  {
    hide WideningStep, Exceeds, Trusted, BadSource, Unidentified, ValidApproval, Restores;
    ApprovalCodes(request.approval, code);
    WideningCodes(norm, base, request.widening, code);
  }

  lemma FilesystemCodes(norm: Normaliser, profile: Profile, effect: Effect, scope: Scope, code: string)
    requires FilesystemReasons(norm, profile, effect, scope).Ok?
    ensures code in FilesystemReasons(norm, profile, effect, scope).value <==>
            FilesystemBroken(norm, profile, effect, scope, code)
  {
    hide Inside, AnyWithin;
    if effect.target.Some? {
      AnyWithinAnswers(norm, effect.target.value, scope.paths);
    }
  }

  lemma NetworkCodes(profile: Profile, context: Context, effect: Effect, scope: Scope, code: string)
    ensures code in NetworkReasons(profile, context, effect, scope) <==>
            NetworkBroken(profile, context, effect, scope, code)
  {
    hide DestinationAllowed;
  }

  lemma BrowserCodes(profile: Profile, context: Context, effect: Effect, scope: Scope, code: string)
    ensures code in BrowserReasons(profile, context, effect, scope) <==>
            BrowserBroken(profile, context, effect, scope, code)
  {
  }

  lemma SecretCodes(profile: Profile, context: Context, effect: Effect, scope: Scope, code: string)
    ensures code in SecretReasons(profile, context, effect, scope) <==>
            SecretBroken(profile, context, effect, scope, code)
  {
  }

  lemma EffectCodes(norm: Normaliser, request: Request, profile: Profile, scope: Scope, code: string)
    requires EffectReasons(norm, ProfileId(request), profile, request.context, request.effect, scope).Ok?
    ensures code in EffectReasons(norm, ProfileId(request), profile, request.context, request.effect, scope).value
            <==> EffectBroken(norm, request, profile, scope, code)
  {
    hide ProfileId, FilesystemReasons, FilesystemBroken, ProcessReasons, ProcessBroken, NetworkReasons, NetworkBroken,
      BrowserReasons, BrowserBroken, SecretReasons, SecretBroken;
    var effect, context := request.effect, request.context;
    if effect.domain == "filesystem" {
      FilesystemCodes(norm, profile, effect, scope, code);
    }
    ProcessCodes(profile, effect, code);
    NetworkCodes(profile, context, effect, scope, code);
    BrowserCodes(profile, context, effect, scope, code);
    SecretCodes(profile, context, effect, scope, code);
  }

  lemma ProcessCodes(profile: Profile, effect: Effect, code: string)
    ensures code in ProcessReasons(profile, effect) <==> ProcessBroken(profile, effect.action, code)
  {
  }

  lemma OverlayCodes(norm: Normaliser, request: Request, s: Setting, ns: seq<Narrowing>, f: Folded, code: string)
    requires ReadOf(norm, request.overlays, ns) && FoldNarrowings(norm, Start(s), ns) == Ok(f)
    requires s.budgets.Keys == BUDGET_FIELDS
    requires s.capabilityId == Strip(request.binding.capabilityId) && s.toolId == Strip(request.binding.toolId)
    ensures code in OverlayReasons(s, f) <==>
            OverlayDenies(request, code)
            || (code == "invalid_overlay_budget" && exists o :: o in request.overlays && BadLimit(o.maxBudgets))
  {
    hide FoldNarrowings, ReadOverlay, ReadOf, Strip, Reads, BadLimit, BUDGET_FIELDS, Start;
    DeniedByOverlays(norm, request, s, ns, f);
    LimitsBroken(norm, request, s, ns, f);
  }

  // ----- the decision

  /** All reasons of an evaluation, as the engine collects them. */
  ghost function Reasons(s: Setting, f: Folded, effects: set<string>): set<string> {
    s.reasons + OverlayReasons(s, f) + effects
  }

  lemma ReasonsBroken(norm: Normaliser, request: Request, config: Config, s: Setting, ns: seq<Narrowing>, f: Folded,
      scope: Scope, effects: set<string>, code: string)
    requires Settle(norm, request, config) == Ok(s) && ReadOf(norm, request.overlays, ns)
    requires FoldNarrowings(norm, Start(s), ns) == Ok(f)
    requires EffectReasons(norm, s.profileId, s.profile, request.context, request.effect, scope) == Ok(effects)
    ensures code in Reasons(s, f, effects) <==> Broken(norm, request, config, scope, code)
  {
    hide Settle, ReadOf, FoldNarrowings, Start, EffectReasons, OverlayReasons, BindingReasons, ValidApproval, Base,
      WideningStep, BindingBroken, OverlayDenies, ApprovalBroken, EffectBroken, ProfileBudgets, ClampBudgets,
      BadRequestedBudget, BadLimit, BUDGET_FIELDS, ProfileId, CapabilityOf, Strip;
    SettingParts(norm, request, config, s);
    BudgetFields(request, config, s);
    BindingCodes(request, config, code);
    AuthorityCodes(norm, request, s.base, code);
    OverlayCodes(norm, request, s, ns, f, code);
    EffectCodes(norm, request, s.profile, scope, code);
  }

  /** The profile or some overlay asks for this approval level. */
  ghost predicate AsksFor(request: Request, profile: Profile, level: string) {
    profile.approvalPolicy == level || exists o :: o in request.overlays && o.approvalPolicy == Some(level)
  }

  /** The strictest level asked for is "always", or it is "high_risk_only" and the capability has high risk. */
  ghost predicate ApprovalDemanded(request: Request, config: Config) {
    ProfileId(request) in config.profiles &&
    var profile, id := config.profiles[ProfileId(request)], Strip(request.binding.capabilityId);
    || AsksFor(request, profile, "always")
    || (AsksFor(request, profile, "high_risk_only")
        && (id !in config.capabilities || config.capabilities[id].risk == "high"))
  }

  lemma LevelReached(norm: Normaliser, request: Request, s: Setting, ns: seq<Narrowing>, f: Folded, level: string)
    requires ReadOf(norm, request.overlays, ns) && FoldNarrowings(norm, Start(s), ns) == Ok(f)
    ensures AsksFor(request, s.profile, level) ==> ApprovalRank(f.approvalPolicy) >= ApprovalRank(level)
    ensures ApprovalRank(f.approvalPolicy) == ApprovalRank(level) >= 0 ==> AsksFor(request, s.profile, level)
  {
    hide FoldNarrowings, ReadOverlay;
    FoldPolicy(norm, Start(s), ns);
    forall o, n | o in request.overlays && ReadOverlay(norm, o) == Ok(n) ensures n.approvalPolicy == o.approvalPolicy {
      OverlayFields(norm, o, n);
    }
    forall o | o in request.overlays ensures exists n :: n in ns && ReadOverlay(norm, o) == Ok(n) {
      assert ReadOverlay(norm, o).value in ns;
    }
    RankNames(level);
  }

  lemma RankNames(level: string)
    ensures forall other :: ApprovalRank(other) == ApprovalRank(level) >= 0 ==> other == level
  {
  }

  lemma ApprovalNeed(norm: Normaliser, request: Request, config: Config, s: Setting, ns: seq<Narrowing>, f: Folded)
    requires Settle(norm, request, config) == Ok(s)
    requires ReadOf(norm, request.overlays, ns) && FoldNarrowings(norm, Start(s), ns) == Ok(f)
    ensures NeedsApproval(f.approvalPolicy, s.risk) <==> ApprovalDemanded(request, config)
  {
    hide Settle, ReadOf, FoldNarrowings, Start, AsksFor, Base, ProfileBudgets, ClampBudgets, ValidApproval,
      WideningStep,
      BindingReasons, BadRequestedBudget, Strip, When;
    SettingParts(norm, request, config, s);
    LevelReached(norm, request, s, ns, f, "always");
    LevelReached(norm, request, s, ns, f, "high_risk_only");
  }

  lemma Concluded(norm: Normaliser, request: Request, s: Setting, f: Folded)
    requires Conclude(norm, request, s, f).Ok?
    ensures var d := Conclude(norm, request, s, f).value;
            var effects := EffectReasons(norm, s.profileId, s.profile, request.context, request.effect, d.scope);
            && effects.Ok? && d.profileId == s.profileId
            && d.budgets == f.budgets && d.scope == Widen(f.scope, s.widened)
            && var reasons, needs := Reasons(s, f, effects.value), NeedsApproval(f.approvalPolicy, s.risk);
               && d.status == StatusOf(reasons, needs, s.approved)
               && d.reasonCodes == CodesOf(reasons, needs, s.approved)
               && d.grant == if d.status.Allow?
                             then Some(GrantDraft(GrantBinding(request.binding), d.scope, request.effect, d.budgets))
                             else None
  {
    hide EffectReasons, OverlayReasons, NeedsApproval, StatusOf, CodesOf, Widen, GrantBinding;
  }

  /** Some rule is broken. */
  ghost predicate Blocked(norm: Normaliser, request: Request, config: Config, scope: Scope) {
    exists code :: Broken(norm, request, config, scope, code)
  }

  /** What an accepted evaluation answers: a denial exactly when a rule is broken, with the codes of the
      broken rules and no others; otherwise an approval is asked for exactly when one is demanded and none
      that is valid was given. */
  lemma DecisionExact(norm: Normaliser, request: Request, config: Config)
    requires Evaluate(norm, request, config).Ok?
    ensures var d := Evaluate(norm, request, config).value;
            var blocked := Blocked(norm, request, config, d.scope);
            var waits := ApprovalDemanded(request, config) && !Trusted(request.approval);
            && (d.status == Deny <==> blocked)
            && (d.status == ApprovalRequired <==> !blocked && waits)
            && (d.status == Allow <==> !blocked && !waits)
            && (d.status == ApprovalRequired ==> d.reasonCodes == ["approval_required"])
            && (d.status != ApprovalRequired ==>
                  Ascending(d.reasonCodes)
                  && forall code :: code in d.reasonCodes <==> Broken(norm, request, config, d.scope, code))
  {
    hide *;
    var s, ns, f := EvaluationParts(norm, request, config);
    Concluded(norm, request, s, f);
    SettingParts(norm, request, config, s);
    ApprovalNeed(norm, request, config, s, ns, f);
    ApprovalCodes(request.approval, "");
    var d := Evaluate(norm, request, config).value;
    var effects := EffectReasons(norm, s.profileId, s.profile, request.context, request.effect, d.scope).value;
    var reasons := Reasons(s, f, effects);
    forall code ensures code in reasons <==> Broken(norm, request, config, d.scope, code) {
      ReasonsBroken(norm, request, config, s, ns, f, d.scope, effects, code);
    }
    BlockedByReasons(norm, request, config, d.scope, reasons);
    StatusCases(reasons, NeedsApproval(f.approvalPolicy, s.risk), s.approved);
  }

  lemma BlockedByReasons(norm: Normaliser, request: Request, config: Config, scope: Scope, reasons: set<string>)
    requires forall code :: code in reasons <==> Broken(norm, request, config, scope, code)
    ensures Blocked(norm, request, config, scope) <==> reasons != {}
  {
    hide Broken;
    if reasons != {} {
      var code :| code in reasons;
    }
  }

  lemma StatusCases(reasons: set<string>, needs: bool, approved: bool)
    ensures var status, codes := StatusOf(reasons, needs, approved), CodesOf(reasons, needs, approved);
            && (status == Deny <==> reasons != {})
            && (status == ApprovalRequired <==> reasons == {} && needs && !approved)
            && (status == Allow <==> reasons == {} && !(needs && !approved))
            && (status == ApprovalRequired ==> codes == ["approval_required"])
            && (status != ApprovalRequired ==> Ascending(codes) && forall code :: code in codes <==> code in reasons)
  {
  }

  /** A grant is drafted exactly for an allowed effect, for the stripped identities, and carries the
      effective scope and budgets and the effect itself. */
  lemma GrantExact(norm: Normaliser, request: Request, config: Config)
    requires Evaluate(norm, request, config).Ok?
    ensures var d, b := Evaluate(norm, request, config).value, request.binding;
            && d.profileId == Strip(b.accessProfileId)
            && (d.grant.Some? <==> d.status == Allow)
            && (d.grant.Some? ==>
                  var g := d.grant.value;
                  && g.binding.accessProfileId == Strip(b.accessProfileId)
                  && g.binding.capabilityId == Strip(b.capabilityId) && g.binding.toolId == Strip(b.toolId)
                  && g.binding.actorId == Strip(b.actorId)
                  && g.binding.runId == b.runId && g.binding.taskId == b.taskId
                  && g.scope == d.scope && g.effect == request.effect && g.budgets == d.budgets)
  {
    hide Evaluate, FoldNarrowings, ReadOf, Conclude, EffectReasons, Widen, StatusOf, CodesOf, NeedsApproval, Reasons,
      Settle, Start, Strip, Base, ProfileBudgets, ClampBudgets, ValidApproval, WideningStep, BindingReasons,
      BadRequestedBudget, CapabilityOf, When;
    var s, ns, f := EvaluationParts(norm, request, config);
    Concluded(norm, request, s, f);
    SettingParts(norm, request, config, s);
  }
}
