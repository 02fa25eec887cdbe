/** Nothing the policy engine grants climbs above the profile's ceiling, and no denial is overridden. */
module PolicyCeiling {
  import opened Wrappers
  import opened Text
  import opened Paths
  import opened PolicyScope
  import opened PolicyEngine
  import opened OverlayFold
  import opened PolicyTheorems
  import Sorting

  /** Every scope list admits only what the base scope admits. */
  ghost predicate UnderBase(norm: Normaliser, scope: Scope, base: Scope) {
    && (forall p :: p in scope.paths ==> norm(p).Ok? && Admits(norm, norm(p).value, base.paths))
    && (forall t :: Admits(norm, t, scope.paths) ==> Admits(norm, t, base.paths))
    && (forall host :: DestinationAllowed(host, scope.destinations) ==> DestinationAllowed(host, base.destinations))
    && (forall x :: Holds(x, scope.browsers) ==> Holds(x, base.browsers))
    && (forall x :: x in scope.leases ==> x in base.leases)
  }

  ghost predicate PlainHosts(base: seq<string>) {
    forall item :: item in base ==> !NestedWildcard(HostForm(item))
  }

  lemma WidenedHosts(narrowed: seq<string>, added: set<string>, base: seq<string>, host: string)
    requires forall x :: Holds(x, narrowed) ==> Holds(x, base)
    requires forall h :: h in added ==> exists r :: DestinationAllowed(r, base) && h == Lower(r)
    requires PlainHosts(base)
    requires DestinationAllowed(host, AddNames(narrowed, added))
    ensures DestinationAllowed(host, base)
  {
    hide HostForm, MatchesForm, NestedWildcard, AddNames;
    var item :| item in AddNames(narrowed, added) && MatchesForm(HostForm(host), HostForm(item));
    AddedNames(narrowed, added, item);
    if item in narrowed {
      assert DestinationAllowed(host, narrowed);
      FewerNamesFewerHosts(host, narrowed, base);
    } else {
      var r :| DestinationAllowed(r, base) && item == Lower(r);
      assert DestinationAllowed(host, [Lower(r)]);
      RestoredHostStaysUnder(r, base, host);
    }
  }

  lemma WidenedPaths(norm: Normaliser, narrowed: seq<string>, added: set<string>, base: seq<string>)
    requires Settled(norm, narrowed)
    requires forall t :: Admits(norm, t, narrowed) ==> Admits(norm, t, base)
    requires forall p :: p in added ==> norm(p).Ok? && Admits(norm, norm(p).value, base)
    ensures forall p :: p in AddNames(narrowed, added) ==> norm(p).Ok? && Admits(norm, norm(p).value, base)
    ensures forall t :: Admits(norm, t, AddNames(narrowed, added)) ==> Admits(norm, t, base)
  {
    hide AddNames;
    forall p | p in AddNames(narrowed, added) ensures norm(p).Ok? && Admits(norm, norm(p).value, base) {
      AddedNames(narrowed, added, p);
      if p in narrowed {
        OwnPrefix(norm, p, narrowed);
      }
    }
    forall t | Admits(norm, t, AddNames(narrowed, added)) ensures Admits(norm, t, base) {
      var p :| p in AddNames(narrowed, added) && norm(p).Ok? && Within(t, norm(p).value);
      AdmitsInherited(norm, t, norm(p).value, base);
    }
  }

  lemma WidenStaysUnder(norm: Normaliser, scope: Scope, w: Widened, base: Scope)
    requires ScopeNarrower(norm, scope, base) && Settled(norm, scope.paths)
    requires WidenedUnder(norm, w, base) && PlainHosts(base.destinations)
    ensures UnderBase(norm, Widen(scope, w), base)
  {
    hide HostForm, NestedWildcard, DestinationAllowed, Settled, AddNames, PlainHosts;
    WidenedPaths(norm, scope.paths, w.paths, base.paths);
    forall host | DestinationAllowed(host, Widen(scope, w).destinations)
      ensures DestinationAllowed(host, base.destinations)
    {
      WidenedHosts(scope.destinations, w.destinations, base.destinations, host);
    }
    forall x ensures Holds(x, Widen(scope, w).browsers) ==> Holds(x, base.browsers) {
      AddedNames(scope.browsers, w.browsers, x);
      AddedNames(scope.browsers, w.browsers, ANY);
      assert Holds(ANY, scope.browsers) ==> Holds(ANY, base.browsers);
      assert Holds(x, scope.browsers) ==> Holds(x, base.browsers);
    }
    forall x ensures x in Widen(scope, w).leases ==> x in base.leases {
      AddedNames(scope.leases, w.leases, x);
    }
  }

  /** The effect's target is admitted by the scope, in the sense its domain's check gives. */
  ghost predicate TargetAdmitted(norm: Normaliser, effect: Effect, scope: Scope) {
    && (effect.domain == "filesystem" ==>
          effect.target.Some? && norm(effect.target.value).Ok? &&
              Admits(norm, norm(effect.target.value).value, scope.paths))
    && (effect.domain == "network" ==> DestinationAllowed(TargetText(effect), scope.destinations))
    && (effect.domain == "browser" ==> Holds(TargetText(effect), scope.browsers))
    && (effect.domain == "secret" ==> TargetText(effect) in scope.leases)
  }

  lemma NoReasonsMeansAdmitted(norm: Normaliser, request: Request, s: Setting, scope: Scope)
    requires AllNormalize(norm, scope.paths)
    requires EffectReasons(norm, s.profileId, s.profile, request.context, request.effect, scope) == Ok({})
    ensures TargetAdmitted(norm, request.effect, scope)
  {
    hide AnyWithin, Admits, DestinationAllowed;
    var effect := request.effect;
    if effect.domain == "filesystem" {
      if effect.target.Some? {
        AnyWithinMeaning(norm, effect.target.value, scope.paths);
      }
    }
  }

  lemma GrantMeansNoReasons(norm: Normaliser, request: Request, s: Setting, f: Folded)
    requires Conclude(norm, request, s, f).Ok? && Conclude(norm, request, s, f).value.grant.Some?
    ensures EffectReasons(norm, s.profileId, s.profile, request.context, request.effect, Widen(f.scope, s.widened))
            == Ok({})
  {
    hide EffectReasons, OverlayReasons, NeedsApproval, CodesOf, Widen;
    var reasons := EffectReasons(norm, s.profileId, s.profile, request.context, request.effect,
        Widen(f.scope, s.widened)).value;
    assert s.reasons + OverlayReasons(s, f) + reasons == {};
    assert forall x :: x in reasons ==> x in s.reasons + OverlayReasons(s, f) + reasons;
    assert reasons == {};
  }

  /** The budgets lie under the profile's budgets and under every overlay's. */
  lemma BudgetsUnder(norm: Normaliser, s: Setting, ns: seq<Narrowing>)
    requires FoldNarrowings(norm, Start(s), ns).Ok?
    requires forall f :: f in s.budgets ==> f in s.ceiling && s.budgets[f] <= s.ceiling[f]
    ensures var r := FoldNarrowings(norm, Start(s), ns).value.budgets;
            forall f :: f in r ==> f in s.ceiling && r[f] <= s.ceiling[f]
  {
    hide FoldNarrowings;
    FoldBudgetKeys(norm, Start(s), ns);
    var r := FoldNarrowings(norm, Start(s), ns).value.budgets;
    forall f | f in r ensures f in s.ceiling && r[f] <= s.ceiling[f] {
      assert f in r.Keys;
      FoldBudgets(norm, Start(s), ns, f);
    }
  }

  /** Ceiling safety of one evaluation in any overlay order. */
  lemma InOrderUnderCeiling(norm: Normaliser, request: Request, config: Config, ordered: seq<Overlay>)
    requires OrdinaryBase(norm, request, config) && OrdinaryOverlays(norm, ordered)
    requires EvaluateInOrder(norm, request, config, ordered).Ok?
    requires PlainHosts(Settle(norm, request, config).value.base.destinations)
    ensures var s, d := Settle(norm, request, config).value, EvaluateInOrder(norm, request, config, ordered).value;
            && UnderBase(norm, d.scope, s.base)
            && (forall f :: f in d.budgets ==> f in s.ceiling && d.budgets[f] <= s.ceiling[f])
            && (d.grant.Some? ==> TargetAdmitted(norm, request.effect, s.base))
  {
    hide Settle, FoldOverlays, ReadAll, Settled, SettledPaths, Widen, AllNormalize, WidenedUnder, WideningStep,
      FoldNarrowings, ReadOverlay, EffectReasons, UnderBase, TargetAdmitted, ScopeNarrower, PlainHosts, OverlayReasons,
      NeedsApproval, CodesOf;
    var s := Settle(norm, request, config).value;
    var st := Start(s);
    FoldReads(norm, st, ordered);
    ReadSettled(norm, ordered);
    var ns := ReadAll(norm, ordered).value;
    var f := FoldNarrowings(norm, st, ns).value;
    FoldPaths(norm, st, ns);
    FoldUnderStart(norm, st, ns);
    SettingFacts(norm, request, config);
    BudgetsUnder(norm, s, ns);
    SettledNormalize(norm, s.base.paths);
    WideningStaysUnder(norm, s.base, request.widening);
    WidenedNormalize(norm, f.scope, s.widened, s.base);
    WidenStaysUnder(norm, f.scope, s.widened, s.base);
    var scope := Widen(f.scope, s.widened);
    var d := Conclude(norm, request, s, f).value;
    if d.grant.Some? {
      GrantMeansNoReasons(norm, request, s, f);
      NoReasonsMeansAdmitted(norm, request, s, scope);
      TargetUnder(norm, request.effect, scope, s.base);
    }
  }

  lemma FoldUnderStart(norm: Normaliser, st: Folded, ns: seq<Narrowing>)
    requires Settled(norm, st.scope.paths) && SettledPaths(norm, ns) && ANY !in st.scope.leases
    requires FoldNarrowings(norm, st, ns).Ok?
    ensures ScopeNarrower(norm, FoldNarrowings(norm, st, ns).value.scope, st.scope)
  {
    hide Settled, SettledPaths, Narrower;
    FoldScopeNarrows(norm, st, [], ns);
  }

  lemma TargetUnder(norm: Normaliser, effect: Effect, scope: Scope, base: Scope)
    requires UnderBase(norm, scope, base) && TargetAdmitted(norm, effect, scope)
    ensures TargetAdmitted(norm, effect, base)
  {
    hide Admits, DestinationAllowed, Holds;
  }

  /** Ceiling safety: every effective path, destination, browser profile, lease and budget lies under
      the profile's own, and a grant is drafted only for a target the base scope itself admits. */
  lemma NothingExceedsTheCeiling(norm: Normaliser, request: Request, config: Config)
    requires OrdinaryBase(norm, request, config) && OrdinaryOverlays(norm, request.overlays)
    requires Evaluate(norm, request, config).Ok?
    requires Settle(norm, request, config).Ok? ==> PlainHosts(Settle(norm, request, config).value.base.destinations)
    ensures Settle(norm, request, config).Ok?
    ensures var s, d := Settle(norm, request, config).value, Evaluate(norm, request, config).value;
            && UnderBase(norm, d.scope, s.base)
            && (forall f :: f in d.budgets ==> f in s.ceiling && d.budgets[f] <= s.ceiling[f])
            && (d.grant.Some? ==> TargetAdmitted(norm, request.effect, s.base))
  {
    hide Settle, FoldOverlays, UnderBase, TargetAdmitted, ValidKey, KeyLess, PlainHosts, OrdinaryBase, Conclude,
      ReadOverlay, Settled;
    Sorting.SortBySpec(KeyLess, request.overlays);
    InOrderUnderCeiling(norm, request, config, Sorting.SortBy(KeyLess, request.overlays));
  }

  // ----- denials are final

  /** Some overlay denies the capability, denies the tool or forces a denial. */
  ghost predicate DeniedByOverlay(norm: Normaliser, request: Request) {
    exists o :: o in request.overlays && ReadOverlay(norm, o).Ok? &&
      var n := ReadOverlay(norm, o).value;
      n.forceDeny || Strip(request.binding.capabilityId) in n.capabilities || Strip(request.binding.toolId) in n.tools
  }

  lemma SettingNames(norm: Normaliser, request: Request, config: Config)
    requires Settle(norm, request, config).Ok?
    ensures var s := Settle(norm, request, config).value;
            s.capabilityId == Strip(request.binding.capabilityId) && s.toolId == Strip(request.binding.toolId)
  {
    hide BaseScope, WideningStep, BindingReasons, ProfileBudgets, BadRequestedBudget, ValidApproval, BlankBinding,
      Strip;
  }

  /** A denying overlay decides: no approval and no widening turns it into anything but a denial. */
  lemma DenyingOverlayWins(norm: Normaliser, request: Request, config: Config)
    requires DeniedByOverlay(norm, request) && Evaluate(norm, request, config).Ok?
    ensures Evaluate(norm, request, config).value.status == Deny && Evaluate(norm, request, config).value.grant.None?
  {
    hide Settle, FoldOverlays, ReadAll, FoldNarrowings, ReadOverlay, EffectReasons, ValidKey, KeyLess, Widen, CodesOf,
      NeedsApproval, Strip;
    Sorting.SortBySpec(KeyLess, request.overlays);
    var ordered := Sorting.SortBy(KeyLess, request.overlays);
    var s := Settle(norm, request, config).value;
    SettingNames(norm, request, config);
    FoldReads(norm, Start(s), ordered);
    ReadAllMembers(norm, ordered);
    var ns := ReadAll(norm, ordered).value;
    var o :| o in request.overlays && ReadOverlay(norm, o).Ok? &&
      var n := ReadOverlay(norm, o).value;
      n.forceDeny || s.capabilityId in n.capabilities || s.toolId in n.tools;
    assert ReadOverlay(norm, o).value in ns;
    FoldDenials(norm, Start(s), ns, s.capabilityId);
    FoldDenials(norm, Start(s), ns, s.toolId);
    var f := FoldNarrowings(norm, Start(s), ns).value;
    assert OverlayReasons(s, f) != {};
  }
}
