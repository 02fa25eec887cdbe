/** A family of small requests, one for each way an evaluation can go wrong, and what they evaluate to. */
module PolicyProbes {
  import opened Wrappers
  import opened Text
  import opened Sorting
  import opened Paths
  import opened PolicyScope
  import opened PolicyEngine

  function ProbeProfile(files: string, network: string, credentials: string): Profile {
    Profile("never", files, {"read"}, {"finiteCommands"}, "none", network, false, false, "none", false, credentials,
        false)
  }

  function ProbeConfig(domain: string, profile: Profile): Config {
    Config(
      map["p" := profile],
      map["c" := Capability(domain, "low", ["t"], "")],
      map["p" := map["wallClockMs" := 1, "maxOutputBytes" := 1, "maxNetworkBytes" := 1, "maxCostMicros" := 1,
                     "maxMutations" := 1]])
  }

  const NOT_APPROVED := Approval(false, "", "")
  const NO_WIDENING := Widening(NOT_APPROVED, [], [], [], [])

  function Probe(effect: Effect, root: string, destinations: seq<string>, leases: seq<string>, overlays: seq<Overlay>,
                 widening: Widening): Request
  {
    Request(
      Binding("p", "c", "t", "a", "r", "k"), effect,
      Context(root, [], "", [], destinations, [], [], leases, false, false, false), map[], overlays, NOT_APPROVED,
          widening)
  }

  function ReadProbe(root: string, target: string, overlays: seq<Overlay>): Request {
    Probe(Effect("filesystem", "read", Some(target)), root, [], [], overlays, NO_WIDENING)
  }

  const RUN := Effect("process", "finite_command", None)

  function RunProbe(root: string, overlays: seq<Overlay>): Request {
    Probe(RUN, root, [], [], overlays, NO_WIDENING)
  }

  function LeaseProbe(lease: string, overlays: seq<Overlay>): Request {
    Probe(Effect("secret", "use", Some("x")), "", [], [lease], overlays, NO_WIDENING)
  }

  function HostProbe(host: string, restored: string): Request {
    Probe(RUN, "", [host], [], [], Widening(Approval(true, "owner", "i"), [], [restored], [], []))
  }

  const ROOTED := ProbeProfile("project", "none", "none")
  const LEASED := ProbeProfile("none", "none", "lease")
  const HOSTED := ProbeProfile("none", "allowlist", "none")

  function PathOverlay(layer: string, prefixes: seq<string>): Overlay {
    Overlay(layer, "o", [], [], false, Some(prefixes), None, None, None, map[], None)
  }

  function LeasesOverlay(leases: seq<string>): Overlay {
    Overlay("user", "o", [], [], false, None, None, None, Some(leases), map[], None)
  }

  function LeaseOverlay(lease: string): Overlay {
    LeasesOverlay([lease])
  }

  // ----- the setting of a probe

  lemma OneLetter(s: string)
    requires |s| == 1 && !IsSpace(s[0])
    ensures Strip(s) == s && !Blank(s)
  {
    hide IsSpace;
    StripFixed(s);
  }

  predicate ProbeSettled(s: Setting, profile: Profile, base: Scope, widened: Widened) {
    && s.profileId == "p" && s.profile == profile && s.capabilityId == "c" && s.toolId == "t"
    && s.base == base && s.reasons == {} && s.widened == widened
  }

  lemma ProbeSections(effect: Effect, profile: Profile)
    ensures ProfileBudgets("p", ProbeConfig(effect.domain, profile)).Ok?
    ensures BindingReasons(ProbeConfig(effect.domain, profile), "c", "t", "a", effect) == {}
    ensures forall ceiling :: !BadRequestedBudget(ceiling, map[])
  {
    assert "t" in ["t"];
  }

  lemma ProbeSetting(effect: Effect, root: string, destinations: seq<string>, leases: seq<string>,
                     overlays: seq<Overlay>,
                     widening: Widening, profile: Profile, base: Scope, widened: Widened)
    requires BaseScope(Normalize, "p", profile, Probe(effect, root, destinations, leases, overlays, widening).context)
             == Ok(base)
    requires WideningStep(Normalize, base, widening) == Ok((widened, {}))
    ensures var s := Settle(Normalize, Probe(effect, root, destinations, leases, overlays, widening),
                            ProbeConfig(effect.domain, profile));
            s.Ok? && ProbeSettled(s.value, profile, base, widened)
  {
    OneLetter("p");
    OneLetter("c");
    OneLetter("t");
    OneLetter("a");
    OneLetter("r");
    OneLetter("k");
    ProbeSections(effect, profile);
    hide Strip, Normalize, BaseScope, ProfileBudgets, BindingReasons, Blank, ClampBudgets, BadRequestedBudget,
      WideningStep, CapabilityOf;
    assert ValidApproval(NOT_APPROVED) == (false, {});
    assert "p" in ProbeConfig(effect.domain, profile).profiles;
  }

  lemma NothingWidens(base: Scope)
    ensures WideningStep(Normalize, base, NO_WIDENING) == Ok((NOTHING, {}))
  {
  }

  lemma RootBase(root: string, prefix: string, context: Context)
    requires Strip(root) != "" && Normalize(Strip(root)) == Ok(prefix) && context.projectRoot == root
    ensures BaseScope(Normalize, "p", ROOTED, context) == Ok(Scope([prefix], [], [], []))
  {
    hide Normalize, Strip;
    var s := Strip(root);
    assert [s][0] in [s];
    assert NormalizeAll(Normalize, [s]).Ok?;
    assert NormalizeAll(Normalize, [s]).value == [prefix];
  }

  lemma SortedSingle(raw: string)
    requires Strip(raw) != ""
    ensures SortedList([raw]) == Ok([Strip(raw)])
  {
    hide Strip;
    var s := Strip(raw);
    assert [raw][0] in [raw];
    assert StripAll([raw]) == [s];
    assert Elements([s]) == {s};
    SingletonSorted(s);
  }

  lemma SingletonSorted(s: string)
    ensures SortedSet({s}) == [s]
  {
    assert SortedSet({s} - {s}) == [];
  }

  lemma LeaseBase(lease: string, context: Context)
    requires Strip(lease) == ANY && context.availableSecretLeaseIds == [lease]
    ensures BaseScope(Normalize, "p", LEASED, context) == Ok(Scope([], [], [], [ANY]))
  {
    hide Normalize, Strip;
    SortedSingle(lease);
  }

  lemma HostBase(host: string, context: Context)
    requires Strip(host) != "" && context.projectDestinations == [host]
    ensures BaseScope(Normalize, "p", HOSTED, context) == Ok(Scope([], [Strip(host)], [], []))
  {
    hide Normalize, Strip;
    SortedSingle(host);
  }

  // ----- the conclusion of a probe

  function Plainly(scope: Scope, budgets: Budgets): Folded {
    Folded(scope, budgets, false, "never", {}, {}, false)
  }

  /** Nothing but the path test decides a read. */
  lemma ReadConclusion(s: Setting, prefix: string, request: Request, target: string, paths: seq<string>,
                       budgets: Budgets,
                       inside: bool)
    requires ProbeSettled(s, ROOTED, Scope([prefix], [], [], []), NOTHING)
    requires request.effect == Effect("filesystem", "read", Some(target))
    requires AnyWithin(Normalize, target, paths) == Ok(inside)
    ensures var d := Conclude(Normalize, request, s, Plainly(Scope(paths, [], [], []), budgets));
            d.Ok? && (d.value.grant.Some? <==> inside) && d.value.status == (if inside then Allow else Deny)
            && d.value.scope == Scope(paths, [], [], [])
  {
    hide AnyWithin, Normalize;
    assert s.profile.filesystemActions == {"read"};
    assert When("read" !in {"read"}, "filesystem_action_denied") == {};
    var outside := When(!inside, "path_outside_effective_scope");
    assert {} + outside == outside;
    assert FilesystemReasons(Normalize, s.profile, request.effect, Scope(paths, [], [], [])) == Ok(outside);
  }

  /** A refused target refuses the read. */
  lemma ReadRefusal(s: Setting, prefix: string, request: Request, target: string, paths: seq<string>, budgets: Budgets)
    requires ProbeSettled(s, ROOTED, Scope([prefix], [], [], []), NOTHING)
    requires request.effect == Effect("filesystem", "read", Some(target))
    requires AnyWithin(Normalize, target, paths).Refused?
    ensures Conclude(Normalize, request, s, Plainly(Scope(paths, [], [], []), budgets)).Refused?
  {
    hide AnyWithin, Normalize;
  }

  /** A finite command is allowed in any scope. */
  lemma RunConclusion(s: Setting, profile: Profile, base: Scope, widened: Widened, request: Request, scope: Scope,
                      budgets: Budgets)
    requires ProbeSettled(s, profile, base, widened) && profile.processFlags == {"finiteCommands"}
    requires request.effect == RUN
    ensures var d := Conclude(Normalize, request, s, Plainly(scope, budgets));
            d.Ok? && d.value.status == Allow && d.value.scope == Widen(scope, widened)
  {
    hide Normalize, Widen;
    assert ProcessReasons(profile, RUN) == {};
  }

  /** Nothing but the lease test decides the use of a lease. */
  lemma LeaseConclusion(s: Setting, base: Scope, request: Request, leases: seq<string>, budgets: Budgets)
    requires ProbeSettled(s, LEASED, base, NOTHING)
    requires request.effect == Effect("secret", "use", Some("x")) && !request.context.rawReveal
    ensures var d := Conclude(Normalize, request, s, Plainly(Scope([], [], [], leases), budgets));
            d.Ok? && d.value.status == (if "x" in leases then Allow else Deny) &&
                d.value.scope == Scope([], [], [], leases)
  {
    hide Normalize;
    var denied := When("x" !in leases, "secret_lease_denied");
    assert denied + {} == denied;
    assert SecretReasons(LEASED, request.context, request.effect, Scope([], [], [], leases)) == denied;
  }

  // ----- folding the overlays of a probe

  function PathNarrowing(forms: seq<string>): Narrowing {
    Narrowing({}, {}, false, Some(forms), None, None, None, map[], None)
  }

  lemma ReadEmptyOverlay(layer: string)
    ensures ReadOverlay(Normalize, PathOverlay(layer, [])) == Ok(PathNarrowing([]))
  {
    hide Normalize, Strip;
    assert StringList([]) == Ok([]) && Elements([]) == {};
    var empty: seq<string> := [];
    assert NormalizeAll(Normalize, empty).Ok? && NormalizeAll(Normalize, empty).value == empty;
    assert OptionalPaths(Normalize, Some(empty)) == Ok(Some(empty));
    assert OptionalHosts(None) == Ok(None) && OptionalList(None) == Ok(None);
  }

  lemma ReadPathOverlay(layer: string, root: string, prefix: string)
    requires Strip(root) != "" && Normalize(Strip(root)) == Ok(prefix)
    ensures ReadOverlay(Normalize, PathOverlay(layer, [root])) == Ok(PathNarrowing([prefix]))
  {
    hide Normalize, Strip;
    var stripped := [Strip(root)];
    assert StringList([]) == Ok([]) && Elements([]) == {};
    assert [root][0] in [root];
    assert StripAll([root]) == stripped;
    assert stripped[0] in stripped;
    assert NormalizeAll(Normalize, stripped).value == [prefix];
    assert OptionalPaths(Normalize, Some([root])) == Ok(Some([prefix]));
    assert OptionalHosts(None) == Ok(None) && OptionalList(None) == Ok(None);
  }

  function LeaseNarrowing(leases: seq<string>): Narrowing {
    Narrowing({}, {}, false, None, None, None, Some(leases), map[], None)
  }

  lemma ReadLeasesOverlay(leases: seq<string>)
    requires forall l :: l in leases ==> |l| == 1 && !IsSpace(l[0])
    ensures ReadOverlay(Normalize, LeasesOverlay(leases)) == Ok(LeaseNarrowing(leases))
  {
    hide Normalize, Strip, IsSpace;
    forall l | l in leases ensures Strip(l) == l && !Blank(l) {
      OneLetter(l);
    }
    assert StringList([]) == Ok([]) && Elements([]) == {};
    assert forall i :: 0 <= i < |leases| ==> leases[i] in leases;
    assert StripAll(leases) == leases;
    assert OptionalPaths(Normalize, None) == Ok(None);
    assert OptionalHosts(None) == Ok(None) && OptionalList(None) == Ok(None);
  }

  lemma UnchangedBudgets(budgets: Budgets)
    ensures NarrowBudgets(budgets, map[]) == budgets && !BadOverlayBudget(budgets, map[])
  {
  }

  lemma ApplyPaths(scope: Scope, budgets: Budgets, forms: seq<string>)
    ensures Apply(Normalize, Plainly(scope, budgets), PathNarrowing(forms)) ==
            match PathMeet(Normalize, scope.paths, forms)
            case Refused => Refused
            case Ok(m) => Ok(Plainly(scope.(paths := m), budgets))
  {
    hide Normalize, PathMeet;
    UnchangedBudgets(budgets);
    var none: set<string> := {};
    assert none + none == none;
  }

  lemma ApplyLeases(budgets: Budgets, current: seq<string>, leases: seq<string>)
    ensures Apply(Normalize, Plainly(Scope([], [], [], current), budgets), LeaseNarrowing(leases))
         == Ok(Plainly(Scope([], [], [], Meet(current, leases)), budgets))
  {
    hide Normalize, Meet;
    UnchangedBudgets(budgets);
    var none: set<string> := {};
    assert none + none == none;
  }

  /** Folding one overlay is one step; folding more goes on from there. */
  lemma FoldStep(st: Folded, o: Overlay, n: Narrowing, rest: seq<Overlay>)
    requires ReadOverlay(Normalize, o) == Ok(n)
    ensures FoldOverlays(Normalize, st, [o] + rest) ==
            match Apply(Normalize, st, n)
            case Refused => Refused
            case Ok(next) => FoldOverlays(Normalize, next, rest)
    ensures FoldOverlays(Normalize, st, []) == Ok(st)
  {
    hide ReadOverlay, Apply;
    assert ([o] + rest)[1..] == rest;
  }

  // ----- the order of the overlays of a probe

  lemma ProbeOrder(o: Overlay, e: Overlay)
    requires o.layer == "user" && o.overlayId == "o" && e.layer == "organization" && e.overlayId == "o"
    ensures OrderOverlays([]) == Ok([]) && OrderOverlays([o]) == Ok([o]) && OrderOverlays([e]) == Ok([e])
    ensures OrderOverlays([o, o]) == Ok([o, o]) && OrderOverlays([e, o, o]) == Ok([e, o, o])
    ensures ValidKey(o) && ValidKey(e)
  {
    OneLetter("o");
    hide Strip;
    StrLessIrreflexive("o");
    assert !KeyLess(o, o) && !KeyLess(o, e);
    hide KeyLess;
    SortByFixed(KeyLess, [o]);
    SortByFixed(KeyLess, [e]);
    SortByFixed(KeyLess, [o, o]);
    SortByFixed(KeyLess, [e, o, o]);
    SortByFixed(KeyLess, []);
  }
}
