/** `evaluate_policy`: a profile's ceiling, narrowed by overlays, optionally widened again under it,
    then one decision about one effect. */
module PolicyEngine {
  import opened Wrappers
  import opened Text
  import opened Sorting
  import opened PolicyScope

  // ----- inputs

  type Budgets = map<string, int>

  const BUDGET_FIELDS: set<string> :=
    {"wallClockMs", "maxOutputBytes", "maxNetworkBytes", "maxCostMicros", "maxMutations"}

  /** The flags of a profile section are the sets of the names that are literally true. */
  datatype Profile = Profile(
    approvalPolicy: string,
    filesystemScope: string, filesystemActions: set<string>,
    processFlags: set<string>, elevation: string,
    networkScope: string, privateAddresses: bool, listen: bool,
    browserScope: string, authenticatedProfiles: bool,
    credentialMode: string, sandboxed: bool)

  datatype Capability = Capability(domain: string, risk: string, tools: seq<string>, actor: string)

  datatype Config = Config(
    profiles: map<string, Profile>,
    capabilities: map<string, Capability>,
    profileBudgets: map<string, Budgets>)

  /** A missing text is "" and a missing list is []. */
  datatype Context = Context(
    projectRoot: string, currentAccountRoots: seq<string>, sandboxRoot: string,
    grantDestinations: seq<string>, projectDestinations: seq<string>,
    userSelectedBrowserProfiles: seq<string>, availableBrowserProfiles: seq<string>,
    availableSecretLeaseIds: seq<string>,
    privateNetwork: bool, authenticatedBrowser: bool, rawReveal: bool)

  datatype Binding = Binding(
    accessProfileId: string, capabilityId: string, toolId: string, actorId: string, runId: string, taskId: string)

  datatype Effect = Effect(domain: string, action: string, target: Option<string>)

  datatype Approval = Approval(approved: bool, source: string, approvalId: string)

  datatype Widening = Widening(
    approval: Approval, restorePaths: seq<string>, restoreDestinations: seq<string>,
    restoreBrowsers: seq<string>, restoreLeases: seq<string>)

  datatype Overlay = Overlay(
    layer: string, overlayId: string,
    denyCapabilities: seq<string>, denyTools: seq<string>, forceDeny: bool,
    pathPrefixes: Option<seq<string>>, networkDestinations: Option<seq<string>>,
    browserProfiles: Option<seq<string>>, secretLeaseIds: Option<seq<string>>,
    maxBudgets: Budgets, approvalPolicy: Option<string>)

  datatype Request = Request(
    binding: Binding, effect: Effect, context: Context, requestedBudgets: Budgets,
    overlays: seq<Overlay>, approval: Approval, widening: Widening)

  // ----- outputs

  datatype Scope = Scope(paths: seq<string>, destinations: seq<string>, browsers: seq<string>, leases: seq<string>)

  datatype Status = Allow | ApprovalRequired | Deny

  datatype GrantDraft = GrantDraft(binding: Binding, scope: Scope, effect: Effect, budgets: Budgets)

  datatype Decision = Decision(
    status: Status, reasonCodes: seq<string>, profileId: string, scope: Scope, budgets: Budgets,
    grant: Option<GrantDraft>)

  // ----- reading the inputs

  function StringList(xs: seq<string>): Result<seq<string>> {
    if AnyBlank(xs) then Refused else Ok(StripAll(xs))
  }

  function NormalizeAll(norm: Normaliser, xs: seq<string>): Result<seq<string>> {
    if AllNormalize(norm, xs) then Ok(seq(|xs|, i requires 0 <= i < |xs| => NormalOf(norm, xs[i]))) else Refused
  }

  function NormalizeText(norm: Normaliser, x: string): Result<seq<string>> {
    if Blank(x) then Refused else NormalizeAll(norm, [Strip(x)])
  }

  function LowerAll(xs: seq<string>): seq<string> {
    seq(|xs|, i requires 0 <= i < |xs| => Lower(xs[i]))
  }

  function BasePaths(norm: Normaliser, profile: Profile, context: Context): Result<seq<string>> {
    if profile.filesystemScope == "none" then Ok([])
    else if profile.filesystemScope == "project" then NormalizeText(norm, context.projectRoot)
    else if profile.filesystemScope == "current_account" then
      var roots :- StringList(context.currentAccountRoots);
      NormalizeAll(norm, roots)
    else if profile.filesystemScope == "sandbox" then NormalizeText(norm, context.sandboxRoot)
    else Refused
  }

  function SortedList(xs: seq<string>): Result<seq<string>> {
    var items :- StringList(xs);
    Ok(SortedSet(Elements(items)))
  }

  function BaseDestinations(profileId: string, profile: Profile, context: Context): Result<seq<string>> {
    if profile.networkScope == "none" then Ok([])
    else if profile.networkScope == "unrestricted" then Ok([ANY])
    else if profile.networkScope == "allowlist" then
      SortedList(if profileId == "isolated_untrusted" then context.grantDestinations else context.projectDestinations)
    else Refused
  }

  function BaseBrowsers(profile: Profile, context: Context): Result<seq<string>> {
    if profile.browserScope == "none" then Ok([])
    else if profile.browserScope == "isolated" then Ok(["isolated"])
    else if profile.browserScope == "user_selected" then SortedList(context.userSelectedBrowserProfiles)
    else if profile.browserScope == "unrestricted" then
      var available :- SortedList(context.availableBrowserProfiles);
      Ok(if available == [] then [ANY] else available)
    else Refused
  }

  function BaseLeases(profile: Profile, context: Context): Result<seq<string>> {
    if profile.credentialMode == "none" then Ok([]) else SortedList(context.availableSecretLeaseIds)
  }

  /** `_base_scope`: the ceiling of the profile. */
  function BaseScope(norm: Normaliser, profileId: string, profile: Profile, context: Context): Result<Scope> {
    var paths :- BasePaths(norm, profile, context);
    var destinations :- BaseDestinations(profileId, profile, context);
    var browsers :- BaseBrowsers(profile, context);
    var leases :- BaseLeases(profile, context);
    Ok(Scope(paths, destinations, browsers, leases))
  }

  /** `_profile_budgets`. */
  function ProfileBudgets(profileId: string, config: Config): Result<Budgets> {
    if profileId !in config.profileBudgets then Refused
    else
      var raw := config.profileBudgets[profileId];
      if forall f :: f in BUDGET_FIELDS ==> f in raw && raw[f] >= 0
      then Ok(map f | f in BUDGET_FIELDS :: raw[f])
      else Refused
  }

  function Min(a: int, b: int): int {
    if a <= b then a else b
  }

  /** A requested budget that is negative counts as 0 and is reported. */
  function ClampBudgets(ceiling: Budgets, requested: Budgets): Budgets {
    map f | f in ceiling ::
      if f !in requested then ceiling[f]
      else Min(ceiling[f], if requested[f] < 0 then 0 else requested[f])
  }

  predicate BadRequestedBudget(ceiling: Budgets, requested: Budgets) {
    exists f :: f in ceiling && f in requested && requested[f] < 0
  }

  // ----- overlays

  function LayerRank(layer: string): Option<nat> {
    if layer == "organization" then Some(0)
    else if layer == "project" then Some(1)
    else if layer == "user" then Some(2)
    else None
  }

  function Rank(layer: string): nat {
    match LayerRank(layer)
    case Some(n) => n
    case None => 99
  }

  predicate ValidKey(o: Overlay) {
    LayerRank(o.layer).Some? && !Blank(o.overlayId)
  }

  /** The order of `_overlay_key`: layer first, then overlay identity. */
  predicate KeyLess(a: Overlay, b: Overlay) {
    || Rank(a.layer) < Rank(b.layer)
    || (Rank(a.layer) == Rank(b.layer) && StrLess(Strip(a.overlayId), Strip(b.overlayId)))
  }

  function OrderOverlays(overlays: seq<Overlay>): Result<seq<Overlay>> {
    if forall o :: o in overlays ==> ValidKey(o) then Ok(SortBy(KeyLess, overlays)) else Refused
  }

  /** An overlay once its lists are read. */
  datatype Narrowing = Narrowing(
    capabilities: set<string>, tools: set<string>, forceDeny: bool,
    paths: Option<seq<string>>, destinations: Option<seq<string>>,
    browsers: Option<seq<string>>, leases: Option<seq<string>>,
    maxBudgets: Budgets, approvalPolicy: Option<string>)

  function OptionalList(xs: Option<seq<string>>): Result<Option<seq<string>>> {
    match xs
    case None => Ok(None)
    case Some(items) =>
      var read :- StringList(items);
      Ok(Some(read))
  }

  function OptionalPaths(norm: Normaliser, xs: Option<seq<string>>): Result<Option<seq<string>>> {
    var items :- OptionalList(xs);
    match items
    case None => Ok(None)
    case Some(read) =>
      var normal :- NormalizeAll(norm, read);
      Ok(Some(normal))
  }

  function OptionalHosts(xs: Option<seq<string>>): Result<Option<seq<string>>> {
    var items :- OptionalList(xs);
    Ok(if items.Some? then Some(LowerAll(items.value)) else None)
  }

  function ReadOverlay(norm: Normaliser, o: Overlay): Result<Narrowing> {
    var capabilities :- StringList(o.denyCapabilities);
    var tools :- StringList(o.denyTools);
    var paths :- OptionalPaths(norm, o.pathPrefixes);
    var destinations :- OptionalHosts(o.networkDestinations);
    var browsers :- OptionalList(o.browserProfiles);
    var leases :- OptionalList(o.secretLeaseIds);
    Ok(Narrowing(Elements(capabilities), Elements(tools), o.forceDeny, paths, destinations, browsers, leases,
                 o.maxBudgets, o.approvalPolicy))
  }

  function ApprovalRank(policy: string): int {
    if policy == "always" then 2 else if policy == "high_risk_only" then 1 else if policy == "never" then 0 else -1
  }

  /** `_approval_policy_stricter`. */
  function Stricter(left: string, right: string): Result<string> {
    if ApprovalRank(left) < 0 || ApprovalRank(right) < 0 then Refused
    else Ok(if ApprovalRank(left) >= ApprovalRank(right) then left else right)
  }

  /** The dictionaries and sets the overlay loop updates. */
  datatype Folded = Folded(
    scope: Scope, budgets: Budgets, badBudget: bool, approvalPolicy: string,
    deniedCapabilities: set<string>, deniedTools: set<string>, forceDeny: bool)

  function NarrowNames(current: seq<string>, constraint: Option<seq<string>>): seq<string> {
    if constraint.Some? then Meet(current, constraint.value) else current
  }

  function NarrowPaths(norm: Normaliser, current: seq<string>, constraint: Option<seq<string>>): Result<seq<string>> {
    if constraint.Some? then PathMeet(norm, current, constraint.value) else Ok(current)
  }

  function NarrowPolicy(current: string, constraint: Option<string>): Result<string> {
    if constraint.Some? then Stricter(current, constraint.value) else Ok(current)
  }

  predicate BadOverlayBudget(budgets: Budgets, limits: Budgets) {
    exists f :: f in limits && (f !in budgets || limits[f] < 0)
  }

  function NarrowBudgets(budgets: Budgets, limits: Budgets): Budgets {
    map f | f in budgets :: if f in limits && limits[f] >= 0 then Min(budgets[f], limits[f]) else budgets[f]
  }

  function Apply(norm: Normaliser, st: Folded, n: Narrowing): Result<Folded> {
    var paths :- NarrowPaths(norm, st.scope.paths, n.paths);
    var policy :- NarrowPolicy(st.approvalPolicy, n.approvalPolicy);
    Ok(Folded(
      Scope(paths, NarrowNames(st.scope.destinations, n.destinations), NarrowNames(st.scope.browsers, n.browsers),
            NarrowNames(st.scope.leases, n.leases)),
      NarrowBudgets(st.budgets, n.maxBudgets), st.badBudget || BadOverlayBudget(st.budgets, n.maxBudgets), policy,
      st.deniedCapabilities + n.capabilities, st.deniedTools + n.tools, st.forceDeny || n.forceDeny))
  }

  function FoldOverlays(norm: Normaliser, st: Folded, overlays: seq<Overlay>): Result<Folded>
    decreases |overlays|
  {
    if overlays == [] then Ok(st)
    else
      var n :- ReadOverlay(norm, overlays[0]);
      var next :- Apply(norm, st, n);
      FoldOverlays(norm, next, overlays[1..])
  }

  // ----- widening

  /** `_valid_approval`: whether it approves, and the error it reports. */
  function ValidApproval(a: Approval): (bool, set<string>) {
    if a.approved && a.source != "owner" && a.source != "organization_policy"
    then (false, {"untrusted_authority_source"})
    else if a.approved && Blank(a.approvalId) then (false, {"approval_identity_missing"})
    else (a.approved, {})
  }

  predicate WideningRequested(w: Widening) {
    w.restorePaths != [] || w.restoreDestinations != [] || w.restoreBrowsers != [] || w.restoreLeases != []
  }

  /** What a widening adds to each list, and whether part of it was above the ceiling. */
  datatype Widened = Widened(
    paths: set<string>, destinations: set<string>, browsers: set<string>, leases: set<string>, exceeded: bool)

  function RestorePaths(norm: Normaliser, base: seq<string>, items: seq<string>): Result<(set<string>, bool)> {
    if items == [] then Ok(({}, false))
    else
      var n :- norm(items[0]);
      var hit :- AnyWithin(norm, n, base);
      var rest :- RestorePaths(norm, base, items[1..]);
      Ok(if hit then ({n} + rest.0, rest.1) else (rest.0, true))
  }

  predicate LeaseListed(x: string, base: seq<string>) {
    x in base
  }

  function ReadWidening(norm: Normaliser, base: Scope, w: Widening): Result<Widened> {
    var paths :- StringList(w.restorePaths);
    var hosts :- StringList(w.restoreDestinations);
    var browsers :- StringList(w.restoreBrowsers);
    var leases :- StringList(w.restoreLeases);
    var restored :- RestorePaths(norm, base.paths, paths);
    Ok(Widened(
      restored.0,
      (set h | h in hosts && DestinationAllowed(h, base.destinations) :: Lower(h)),
      (set b | b in browsers && Holds(b, base.browsers)),
      (set l | l in leases && LeaseListed(l, base.leases)),
      restored.1 || (exists h :: h in hosts && !DestinationAllowed(h, base.destinations))
      || (exists b :: b in browsers && !Holds(b, base.browsers))
      || (exists l :: l in leases && !LeaseListed(l, base.leases))))
  }

  function AddNames(current: seq<string>, added: set<string>): seq<string> {
    if added == {} then current else SortedSet(Elements(current) + added)
  }

  function Widen(scope: Scope, w: Widened): Scope {
    Scope(AddNames(scope.paths, w.paths), AddNames(scope.destinations, w.destinations),
          AddNames(scope.browsers, w.browsers), AddNames(scope.leases, w.leases))
  }

  const NOTHING := Widened({}, {}, {}, {}, false)

  /** The widening part: nothing is added without a request and a valid approval of its own. */
  function WideningStep(norm: Normaliser, base: Scope, w: Widening): Result<(Widened, set<string>)> {
    if !WideningRequested(w) then Ok((NOTHING, {}))
    else
      var (approved, errors) := ValidApproval(w.approval);
      if !approved then Ok((NOTHING, errors + {"explicit_widening_not_approved"}))
      else
        var widened :- ReadWidening(norm, base, w);
        Ok((widened, if widened.exceeded then {"widening_exceeds_profile_ceiling"} else {}))
  }

  // ----- the decision

  function When(condition: bool, code: string): set<string> {
    if condition then {code} else {}
  }

  const UNKNOWN := Capability("unknown", "high", [], "")

  function CapabilityOf(config: Config, id: string): Capability {
    if id in config.capabilities then config.capabilities[id] else UNKNOWN
  }

  function BindingReasons(config: Config, capabilityId: string, toolId: string, actorId: string,
      effect: Effect): set<string>
  {
    var c := CapabilityOf(config, capabilityId);
    When(capabilityId !in config.capabilities, "unknown_capability")
    + When(toolId !in c.tools, "tool_not_registered_for_capability")
    + When(effect.domain != c.domain, "capability_effect_mismatch")
    + When(c.actor != "" && actorId != c.actor, "wrong_actor")
  }

  function RequiredFlag(action: string): Option<string> {
    if action == "finite_command" then Some("finiteCommands")
    else if action == "interactive_pty" then Some("interactivePty")
    else if action == "package" then Some("packages")
    else if action == "service" then Some("services")
    else None
  }

  function TargetText(effect: Effect): string {
    if effect.target.Some? then effect.target.value else ""
  }

  function FilesystemReasons(norm: Normaliser, profile: Profile, effect: Effect, scope: Scope): Result<set<string>> {
    var denied := When(effect.action !in profile.filesystemActions, "filesystem_action_denied");
    if effect.target.None? then Ok(denied + {"path_outside_effective_scope"})
    else
      var inside :- AnyWithin(norm, effect.target.value, scope.paths);
      Ok(denied + When(!inside, "path_outside_effective_scope"))
  }

  function ProcessReasons(profile: Profile, effect: Effect): set<string> {
    if effect.action == "elevation" then
      When(profile.elevation != "interactive_only" && profile.elevation != "preconfigured", "elevation_denied")
    else
      var flag := RequiredFlag(effect.action);
      When(flag.None? || flag.value !in profile.processFlags, "process_action_denied")
  }

  function NetworkReasons(profile: Profile, context: Context, effect: Effect, scope: Scope): set<string> {
    When(!DestinationAllowed(TargetText(effect), scope.destinations), "network_destination_denied")
    + When(context.privateNetwork && !profile.privateAddresses, "private_network_denied")
    + When(effect.action == "listen" && !profile.listen, "network_listen_denied")
  }

  function BrowserReasons(profile: Profile, context: Context, effect: Effect, scope: Scope): set<string> {
    When(!Holds(TargetText(effect), scope.browsers), "browser_profile_denied")
    + When(context.authenticatedBrowser && !profile.authenticatedProfiles, "authenticated_browser_denied")
  }

  function SecretReasons(profile: Profile, context: Context, effect: Effect, scope: Scope): set<string> {
    When(profile.credentialMode == "none" || TargetText(effect) !in scope.leases, "secret_lease_denied")
    + When(context.rawReveal, "raw_secret_reveal_denied")
  }

  function EffectReasons(norm: Normaliser, profileId: string, profile: Profile, context: Context, effect: Effect,
      scope: Scope)
    : Result<set<string>>
  {
    if effect.domain == "filesystem" then FilesystemReasons(norm, profile, effect, scope)
    else if effect.domain == "process" then Ok(ProcessReasons(profile, effect))
    else if effect.domain == "network" then Ok(NetworkReasons(profile, context, effect, scope))
    else if effect.domain == "browser" then Ok(BrowserReasons(profile, context, effect, scope))
    else if effect.domain == "secret" then Ok(SecretReasons(profile, context, effect, scope))
    else if effect.domain == "sandbox" then
      Ok(When(profileId != "isolated_untrusted" || !profile.sandboxed, "sandbox_profile_required"))
    else Ok({"unknown_effect_domain"})
  }

  predicate NeedsApproval(policy: string, risk: string) {
    policy == "always" || (policy == "high_risk_only" && risk == "high")
  }

  function StatusOf(reasons: set<string>, needsApproval: bool, approved: bool): Status {
    if needsApproval && !approved && reasons == {} then ApprovalRequired
    else if reasons != {} then Deny
    else Allow
  }

  function CodesOf(reasons: set<string>, needsApproval: bool, approved: bool): seq<string> {
    if needsApproval && !approved && reasons == {} then ["approval_required"] else SortedSet(reasons)
  }

  /** The profile, ceiling and first reasons of a request: everything the overlays do not touch. */
  datatype Setting = Setting(
    profileId: string, profile: Profile, capabilityId: string, toolId: string, risk: string,
    base: Scope, ceiling: Budgets, budgets: Budgets, reasons: set<string>, approved: bool,
    widened: Widened)

  predicate BlankBinding(b: Binding) {
    || Blank(b.accessProfileId) || Blank(b.capabilityId) || Blank(b.toolId) || Blank(b.actorId)
    || Blank(b.runId) || Blank(b.taskId)
  }

  function Settle(norm: Normaliser, request: Request, config: Config): Result<Setting> {
    var b := request.binding;
    if BlankBinding(b) || Strip(b.accessProfileId) !in config.profiles then Refused
    else
      var profileId, capabilityId, toolId := Strip(b.accessProfileId), Strip(b.capabilityId), Strip(b.toolId);
      var profile := config.profiles[profileId];
      var base :- BaseScope(norm, profileId, profile, request.context);
      var ceiling :- ProfileBudgets(profileId, config);
      var (approved, approvalErrors) := ValidApproval(request.approval);
      var (widened, wideningReasons) :- WideningStep(norm, base, request.widening);
      Ok(Setting(
        profileId, profile, capabilityId, toolId, CapabilityOf(config, capabilityId).risk,
        base, ceiling, ClampBudgets(ceiling, request.requestedBudgets),
        BindingReasons(config, capabilityId, toolId, Strip(b.actorId), request.effect)
        + When(BadRequestedBudget(ceiling, request.requestedBudgets), "invalid_budget")
        + approvalErrors + wideningReasons,
        approved, widened))
  }

  function Start(s: Setting): Folded {
    Folded(s.base, s.budgets, false, s.profile.approvalPolicy, {}, {}, false)
  }

  function OverlayReasons(s: Setting, f: Folded): set<string> {
    When(f.badBudget, "invalid_overlay_budget")
    + When(s.capabilityId in f.deniedCapabilities, "capability_denied_by_overlay")
    + When(s.toolId in f.deniedTools, "tool_denied_by_overlay")
    + When(f.forceDeny, "force_deny")
  }

  /** A grant draft carries the stripped identities, and the run and task as they came. */
  function GrantBinding(b: Binding): Binding {
    Binding(Strip(b.accessProfileId), Strip(b.capabilityId), Strip(b.toolId), Strip(b.actorId), b.runId, b.taskId)
  }

  /** From the folded overlays to the decision. */
  function Conclude(norm: Normaliser, request: Request, s: Setting, f: Folded): Result<Decision> {
    var scope := Widen(f.scope, s.widened);
    var effectReasons :- EffectReasons(norm, s.profileId, s.profile, request.context, request.effect, scope);
    var reasons := s.reasons + OverlayReasons(s, f) + effectReasons;
    var needs := NeedsApproval(f.approvalPolicy, s.risk);
    var status := StatusOf(reasons, needs, s.approved);
    Ok(Decision(status, CodesOf(reasons, needs, s.approved), s.profileId, scope, f.budgets,
                if status.Allow?
                then Some(GrantDraft(GrantBinding(request.binding), scope, request.effect, f.budgets))
                else None))
  }

  /** `evaluate_policy` with the overlays folded in the order given. */
  function EvaluateInOrder(norm: Normaliser, request: Request, config: Config, ordered: seq<Overlay>): Result<Decision>
  {
    var s :- Settle(norm, request, config);
    var f :- FoldOverlays(norm, Start(s), ordered);
    Conclude(norm, request, s, f)
  }

  /** `evaluate_policy`. */
  function Evaluate(norm: Normaliser, request: Request, config: Config): Result<Decision> {
    var ordered :- OrderOverlays(request.overlays);
    EvaluateInOrder(norm, request, config, ordered)
  }
}
