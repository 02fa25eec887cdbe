/** `evaluate_policy` as the program runs it: loops that update the scope lists, the budgets and the
    reason codes. Each method computes the function that specifies it in `PolicyEngine`. */
module PolicyEvaluation {
  import opened Wrappers
  import opened Text
  import opened PolicyScope
  import opened PolicyEngine
  import Paths

  /** The loop over the items of one overlay's budget limits. */
  method LimitBudgets(budgets: Budgets, limits: Budgets) returns (limited: Budgets, bad: bool)
    ensures limited == NarrowBudgets(budgets, limits)
    ensures bad <==> BadOverlayBudget(budgets, limits)
  {
    limited, bad := budgets, false;
    var left := limits.Keys;
    while left != {}
      invariant left <= limits.Keys
      invariant limited.Keys == budgets.Keys
      invariant forall f :: f in budgets ==>
        limited[f] == if f in limits && f !in left && limits[f] >= 0 then Min(budgets[f], limits[f]) else budgets[f]
      invariant bad <==> exists f :: f in limits && f !in left && (f !in budgets || limits[f] < 0)
      decreases |left|
    {
      var field :| field in left;
      var value := limits[field];
      if field !in budgets || value < 0 {
        bad := true;
      } else {
        limited := limited[field := Min(limited[field], value)];
      }
      left := left - {field};
    }
  }

  /** The loop over the overlays in their order. */
  method NarrowByOverlays(norm: Normaliser, start: Folded, ordered: seq<Overlay>) returns (result: Result<Folded>)
    ensures result == FoldOverlays(norm, start, ordered)
  {
    var paths, destinations := start.scope.paths, start.scope.destinations;
    var browsers, leases := start.scope.browsers, start.scope.leases;
    var budgets, badBudget, policy := start.budgets, start.badBudget, start.approvalPolicy;
    var deniedCapabilities, deniedTools, forceDeny := start.deniedCapabilities, start.deniedTools, start.forceDeny;
    for i := 0 to |ordered|
      invariant FoldOverlays(norm, start, ordered) ==
        FoldOverlays(norm, Folded(Scope(paths, destinations, browsers, leases), budgets, badBudget, policy,
                                  deniedCapabilities, deniedTools, forceDeny), ordered[i..])
    {
      hide ReadOverlay, PathMeet, Meet, NarrowBudgets, BadOverlayBudget, ApprovalRank;
      ghost var rest := ordered[i..];
      assert rest[0] == ordered[i] && rest[1..] == ordered[i + 1..];
      var read := ReadOverlay(norm, ordered[i]);
      if read.Refused? {
        return Refused;
      }
      var n := read.value;
      if n.paths.Some? {
        var met := PathIntersection(norm, paths, n.paths.value);
        if met.Refused? {
          return Refused;
        }
        paths := met.value;
      }
      if n.approvalPolicy.Some? {
        var stricter := Stricter(policy, n.approvalPolicy.value);
        if stricter.Refused? {
          return Refused;
        }
        policy := stricter.value;
      }
      deniedCapabilities := deniedCapabilities + n.capabilities;
      deniedTools := deniedTools + n.tools;
      forceDeny := forceDeny || n.forceDeny;
      if n.destinations.Some? {
        destinations := Meet(destinations, n.destinations.value);
      }
      if n.browsers.Some? {
        browsers := Meet(browsers, n.browsers.value);
      }
      if n.leases.Some? {
        leases := Meet(leases, n.leases.value);
      }
      var limited, bad := LimitBudgets(budgets, n.maxBudgets);
      budgets := limited;
      badBudget := badBudget || bad;
    }
    assert ordered[|ordered|..] == [];
    result := Ok(Folded(Scope(paths, destinations, browsers, leases), budgets, badBudget, policy,
                        deniedCapabilities, deniedTools, forceDeny));
  }

  lemma AddOne(current: seq<string>, added: set<string>, x: string)
    ensures SortedSet(Elements(AddNames(current, added)) + {x}) == AddNames(current, added + {x})
  {
    assert Elements(AddNames(current, added)) + {x} == Elements(current) + (added + {x});
  }

  /** The loop over the paths to restore: each accepted one joins the sorted scope list. */
  method RestorePathLoop(norm: Normaliser, base: seq<string>, items: seq<string>, current: seq<string>)
    returns (result: Result<(seq<string>, bool)>)
    ensures match RestorePaths(norm, base, items)
            case Refused => result == Refused
            case Ok(r) => result == Ok((AddNames(current, r.0), r.1))
  {
    var scope, exceeded := current, false;
    ghost var added: set<string> := {};
    for i := 0 to |items|
      invariant scope == AddNames(current, added)
      invariant RestorePaths(norm, base, items).Ok? <==> RestorePaths(norm, base, items[i..]).Ok?
      invariant RestorePaths(norm, base, items).Ok? ==>
        var all, rest := RestorePaths(norm, base, items).value, RestorePaths(norm, base, items[i..]).value;
        all.0 == added + rest.0 && all.1 == (exceeded || rest.1)
    {
      hide AnyWithin, AddNames, SortedSet, Elements;
      assert items[i..][1..] == items[i + 1..];
      var normalized := norm(items[i]);
      if normalized.Refused? {
        return Refused;
      }
      var inside := AnyWithin(norm, normalized.value, base);
      if inside.Refused? {
        return Refused;
      }
      if inside.value {
        AddOne(current, added, normalized.value);
        added := added + {normalized.value};
        scope := SortedSet(Elements(scope) + {normalized.value});
      } else {
        exceeded := true;
      }
    }
    assert items[|items|..] == [];
    result := Ok((scope, exceeded));
  }

  method RestoreHostLoop(base: seq<string>, items: seq<string>, current: seq<string>)
    returns (scope: seq<string>, exceeded: bool)
    ensures scope == AddNames(current, set h | h in items && DestinationAllowed(h, base) :: Lower(h))
    ensures exceeded <==> exists h :: h in items && !DestinationAllowed(h, base)
  {
    hide DestinationAllowed;
    scope, exceeded := current, false;
    ghost var added: set<string> := {};
    for i := 0 to |items|
      invariant added == set h | h in items[..i] && DestinationAllowed(h, base) :: Lower(h)
      invariant scope == AddNames(current, added)
      invariant exceeded <==> exists h :: h in items[..i] && !DestinationAllowed(h, base)
    {
      hide AddNames, SortedSet, Elements;
      assert items[..i + 1] == items[..i] + [items[i]];
      if DestinationAllowed(items[i], base) {
        AddOne(current, added, Lower(items[i]));
        added := added + {Lower(items[i])};
        scope := SortedSet(Elements(scope) + {Lower(items[i])});
      } else {
        exceeded := true;
      }
    }
    assert items[..|items|] == items;
  }

  /** The loops over browser profiles and leases: `listed` is the loop's membership test. */
  method RestoreNameLoop(listed: string -> bool, items: seq<string>, current: seq<string>)
    returns (scope: seq<string>, exceeded: bool)
    ensures scope == AddNames(current, set x | x in items && listed(x))
    ensures exceeded <==> exists x :: x in items && !listed(x)
  {
    scope, exceeded := current, false;
    ghost var added: set<string> := {};
    for i := 0 to |items|
      invariant added == set x | x in items[..i] && listed(x)
      invariant scope == AddNames(current, added)
      invariant exceeded <==> exists x :: x in items[..i] && !listed(x)
    {
      hide AddNames, SortedSet, Elements;
      assert items[..i + 1] == items[..i] + [items[i]];
      if listed(items[i]) {
        AddOne(current, added, items[i]);
        added := added + {items[i]};
        scope := SortedSet(Elements(scope) + {items[i]});
      } else {
        exceeded := true;
      }
    }
    assert items[..|items|] == items;
  }

  /** The widening of one scope: unchanged without a request or without its own valid approval. */
  method WidenScope(norm: Normaliser, base: Scope, scope: Scope, w: Widening)
      returns (result: Result<(Scope, set<string>)>)
    ensures match WideningStep(norm, base, w)
            case Refused => result == Refused
            case Ok(step) => result == Ok((Widen(scope, step.0), step.1))
  {
    hide RestorePaths, DestinationAllowed, StringList, Holds;
    if !WideningRequested(w) {
      return Ok((scope, {}));
    }
    var (approved, errors) := ValidApproval(w.approval);
    if !approved {
      return Ok((scope, errors + {"explicit_widening_not_approved"}));
    }
    var pathItems, hostItems := StringList(w.restorePaths), StringList(w.restoreDestinations);
    var browserItems, leaseItems := StringList(w.restoreBrowsers), StringList(w.restoreLeases);
    if pathItems.Refused? || hostItems.Refused? || browserItems.Refused? || leaseItems.Refused? {
      return Refused;
    }
    var restored := RestorePathLoop(norm, base.paths, pathItems.value, scope.paths);
    if restored.Refused? {
      return Refused;
    }
    var (paths, pathsExceed) := restored.value;
    var destinations, hostsExceed := RestoreHostLoop(base.destinations, hostItems.value, scope.destinations);
    var browsers, browsersExceed := RestoreNameLoop(b => Holds(b, base.browsers), browserItems.value, scope.browsers);
    var leases, leasesExceed := RestoreNameLoop(l => LeaseListed(l, base.leases), leaseItems.value, scope.leases);
    ghost var widened := ReadWidening(norm, base, w).value;
    assert widened.browsers == set b | b in browserItems.value && (b => Holds(b, base.browsers))(b);
    assert widened.leases == set l | l in leaseItems.value && (l => LeaseListed(l, base.leases))(l);
    result := Ok((Scope(paths, destinations, browsers, leases),
                  When(pathsExceed || hostsExceed || browsersExceed || leasesExceed,
                       "widening_exceeds_profile_ceiling")));
  }

  /** `evaluate_policy` for any normaliser. */
  method EvaluateWith(norm: Normaliser, request: Request, config: Config) returns (result: Result<Decision>)
    ensures result == Evaluate(norm, request, config)
  {
    hide BaseScope, ProfileBudgets, BindingReasons, EffectReasons, Widen, CodesOf, FoldOverlays, KeyLess, ValidKey,
      WideningStep, ClampBudgets, BadRequestedBudget, BlankBinding, Strip, ValidApproval, NeedsApproval;
    var b := request.binding;
    var overlays := OrderOverlays(request.overlays);
    if overlays.Refused? || BlankBinding(b) || Strip(b.accessProfileId) !in config.profiles {
      return Refused;
    }
    var profileId, capabilityId, toolId := Strip(b.accessProfileId), Strip(b.capabilityId), Strip(b.toolId);
    var profile := config.profiles[profileId];
    var base := BaseScope(norm, profileId, profile, request.context);
    var ceiling := ProfileBudgets(profileId, config);
    if base.Refused? || ceiling.Refused? {
      return Refused;
    }
    var reasons := BindingReasons(config, capabilityId, toolId, Strip(b.actorId), request.effect);
    reasons := reasons + When(BadRequestedBudget(ceiling.value, request.requestedBudgets), "invalid_budget");
    var budgets := ClampBudgets(ceiling.value, request.requestedBudgets);
    ghost var s := Settle(norm, request, config);

    var start := Folded(base.value, budgets, false, profile.approvalPolicy, {}, {}, false);
    var folded := NarrowByOverlays(norm, start, overlays.value);
    var (approved, approvalErrors) := ValidApproval(request.approval);
    reasons := reasons + approvalErrors;
    if folded.Refused? {
      return Refused;
    }
    var f := folded.value;
    var widened := WidenScope(norm, base.value, f.scope, request.widening);
    if widened.Refused? {
      return Refused;
    }
    assert s.Ok? && start == Start(s.value);
    var (scope, wideningReasons) := widened.value;
    reasons := reasons + wideningReasons;
    assert reasons == s.value.reasons;
    reasons := reasons + When(f.badBudget, "invalid_overlay_budget")
      + When(capabilityId in f.deniedCapabilities, "capability_denied_by_overlay")
      + When(toolId in f.deniedTools, "tool_denied_by_overlay")
      + When(f.forceDeny, "force_deny");
    assert reasons == s.value.reasons + OverlayReasons(s.value, f);
    var effectReasons := EffectReasons(norm, profileId, profile, request.context, request.effect, scope);
    if effectReasons.Refused? {
      return Refused;
    }
    reasons := reasons + effectReasons.value;
    var needs := NeedsApproval(f.approvalPolicy, CapabilityOf(config, capabilityId).risk);
    var status := StatusOf(reasons, needs, approved);
    var grant := if status.Allow? then Some(GrantDraft(GrantBinding(b), scope, request.effect, f.budgets)) else None;
    result := Ok(Decision(status, CodesOf(reasons, needs, approved), profileId, scope, f.budgets, grant));
  }

  /** `evaluate_policy`. */
  method EvaluatePolicy(request: Request, config: Config) returns (result: Result<Decision>)
    ensures result == Evaluate(Paths.Normalize, request, config)
  {
    hide Evaluate;
    result := EvaluateWith(Paths.Normalize, request, config);
  }
}
