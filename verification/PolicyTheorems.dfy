/** The policy engine's guarantees over every request: overlays only narrow, their order is
    irrelevant, and nothing climbs above the profile's ceiling. */
module PolicyTheorems {
  import opened Wrappers
  import opened Text
  import opened Sorting
  import opened Paths
  import opened PolicyScope
  import opened PolicyEngine
  import opened OverlayFold

  // ----- what it is to be narrower

  ghost predicate ScopeNarrower(norm: Normaliser, a: Scope, b: Scope) {
    && (forall t :: Admits(norm, t, a.paths) ==> Admits(norm, t, b.paths))
    && (forall x :: Holds(x, a.destinations) ==> Holds(x, b.destinations))
    && (forall x :: Holds(x, a.browsers) ==> Holds(x, b.browsers))
    && (forall x :: x in a.leases ==> x in b.leases)
  }

  ghost predicate BudgetsNarrower(a: Budgets, b: Budgets) {
    a.Keys == b.Keys && forall f :: f in a ==> a[f] <= b[f]
  }

  ghost predicate DeniesMore(a: Folded, b: Folded) {
    && (b.badBudget ==> a.badBudget)
    && (forall x :: x in b.deniedCapabilities ==> x in a.deniedCapabilities)
    && (forall x :: x in b.deniedTools ==> x in a.deniedTools)
    && (b.forceDeny ==> a.forceDeny)
  }

  ghost predicate Narrower(norm: Normaliser, a: Folded, b: Folded) {
    && ScopeNarrower(norm, a.scope, b.scope)
    && BudgetsNarrower(a.budgets, b.budgets)
    && DeniesMore(a, b)
    && ApprovalRank(a.approvalPolicy) >= ApprovalRank(b.approvalPolicy)
  }

  // ----- the fold narrows as overlays are added

  lemma FoldScopeNarrows(norm: Normaliser, st: Folded, few: seq<Narrowing>, more: seq<Narrowing>)
    requires Settled(norm, st.scope.paths) && SettledPaths(norm, more) && ANY !in st.scope.leases
    requires forall n :: n in few ==> n in more
    requires FoldNarrowings(norm, st, more).Ok? && FoldNarrowings(norm, st, few).Ok?
    ensures ScopeNarrower(norm, FoldNarrowings(norm, st, more).value.scope, FoldNarrowings(norm, st, few).value.scope)
  {
    hide FoldNarrowings, Admits, Settled;
    FoldPaths(norm, st, more);
    FoldPaths(norm, st, few);
    forall x
      ensures var a, b := FoldNarrowings(norm, st, more).value.scope, FoldNarrowings(norm, st, few).value.scope;
              && (Holds(x, a.destinations) ==> Holds(x, b.destinations))
              && (Holds(x, a.browsers) ==> Holds(x, b.browsers))
              && (x in a.leases ==> x in b.leases)
    {
      FoldNames(norm, st, more, x);
      FoldNames(norm, st, few, x);
    }
  }

  lemma FoldRestNarrows(norm: Normaliser, st: Folded, few: seq<Narrowing>, more: seq<Narrowing>)
    requires forall n :: n in few ==> n in more
    requires FoldNarrowings(norm, st, more).Ok? && FoldNarrowings(norm, st, few).Ok?
    ensures var a, b := FoldNarrowings(norm, st, more).value, FoldNarrowings(norm, st, few).value;
            && BudgetsNarrower(a.budgets, b.budgets) && DeniesMore(a, b)
            && ApprovalRank(a.approvalPolicy) >= ApprovalRank(b.approvalPolicy)
  {
    hide FoldNarrowings, ApprovalRank, BadOverlayBudget;
    var a, b := FoldNarrowings(norm, st, more).value, FoldNarrowings(norm, st, few).value;
    FoldBudgetKeys(norm, st, more);
    FoldBudgetKeys(norm, st, few);
    forall f | f in a.budgets ensures a.budgets[f] <= b.budgets[f] {
      assert f in a.budgets.Keys;
      FoldBudgets(norm, st, more, f);
      FoldBudgets(norm, st, few, f);
    }
    forall x
      ensures x in b.deniedCapabilities ==> x in a.deniedCapabilities
      ensures x in b.deniedTools ==> x in a.deniedTools
      ensures b.forceDeny ==> a.forceDeny
    {
      FoldDenials(norm, st, more, x);
      FoldDenials(norm, st, few, x);
    }
    FoldDenials(norm, st, more, "");
    FoldDenials(norm, st, few, "");
    FoldPolicy(norm, st, more);
    FoldPolicy(norm, st, few);
  }

  /** Adding overlays, at any position, narrows every part of the folded state. */
  lemma MoreOverlaysNarrow(norm: Normaliser, st: Folded, few: seq<Narrowing>, more: seq<Narrowing>)
    requires Settled(norm, st.scope.paths) && SettledPaths(norm, more) && ANY !in st.scope.leases
    requires forall n :: n in few ==> n in more
    requires FoldNarrowings(norm, st, more).Ok?
    ensures FoldNarrowings(norm, st, few).Ok?
    ensures Narrower(norm, FoldNarrowings(norm, st, more).value, FoldNarrowings(norm, st, few).value)
  {
    hide FoldNarrowings, ScopeNarrower, BudgetsNarrower, DeniesMore, ApprovalRank, Settled;
    FoldSucceeds(norm, st, more);
    FoldSucceeds(norm, st, few);
    FoldScopeNarrows(norm, st, few, more);
    FoldRestNarrows(norm, st, few, more);
  }

  // ----- a widening adds the same to both

  lemma AddedNames(current: seq<string>, added: set<string>, x: string)
    ensures x in AddNames(current, added) <==> x in current || x in added
  {
  }

  lemma WidenNarrower(norm: Normaliser, a: Scope, b: Scope, w: Widened)
    requires ScopeNarrower(norm, a, b)
    ensures ScopeNarrower(norm, Widen(a, w), Widen(b, w))
  {
    hide AddNames;
    forall t | Admits(norm, t, Widen(a, w).paths) ensures Admits(norm, t, Widen(b, w).paths) {
      var p :| p in Widen(a, w).paths && norm(p).Ok? && Within(t, norm(p).value);
      AddedNames(a.paths, w.paths, p);
      if p in a.paths {
        assert Admits(norm, t, a.paths);
        var q :| q in b.paths && norm(q).Ok? && Within(t, norm(q).value);
        AddedNames(b.paths, w.paths, q);
      } else {
        AddedNames(b.paths, w.paths, p);
      }
    }
    NamesWiden(a.destinations, b.destinations, w.destinations);
    NamesWiden(a.browsers, b.browsers, w.browsers);
    forall x ensures x in Widen(a, w).leases ==> x in Widen(b, w).leases {
      AddedNames(a.leases, w.leases, x);
      AddedNames(b.leases, w.leases, x);
    }
  }

  lemma NamesWiden(a: seq<string>, b: seq<string>, added: set<string>)
    requires forall x :: Holds(x, a) ==> Holds(x, b)
    ensures forall x :: Holds(x, AddNames(a, added)) ==> Holds(x, AddNames(b, added))
  {
    hide AddNames;
    forall x ensures Holds(x, AddNames(a, added)) ==> Holds(x, AddNames(b, added)) {
      AddedNames(a, added, x);
      AddedNames(b, added, x);
      AddedNames(a, added, ANY);
      AddedNames(b, added, ANY);
      assert Holds(x, a) ==> Holds(x, b);
      assert Holds(ANY, a) ==> Holds(ANY, b);
    }
  }

  // ----- the effect check is monotone

  /** The effect names a path that the normaliser refuses. */
  predicate RefusedTarget(norm: Normaliser, effect: Effect) {
    effect.domain == "filesystem" && effect.target.Some? && norm(effect.target.value).Refused?
  }

  /** A narrower scope gives every reason a wider one gives. Where the wider one refuses the input, so does
      the narrower one, unless it has no prefix left to test a refused target against and finds it outside. */
  lemma EffectReasonsGrow(norm: Normaliser, request: Request, s: Setting, a: Scope, b: Scope)
    requires ScopeNarrower(norm, a, b) && AllNormalize(norm, a.paths) && AllNormalize(norm, b.paths)
    ensures var ra := EffectReasons(norm, s.profileId, s.profile, request.context, request.effect, a);
            var rb := EffectReasons(norm, s.profileId, s.profile, request.context, request.effect, b);
            && (ra.Ok? && rb.Ok? ==> rb.value <= ra.value)
            && (ra.Ok? && rb.Refused? ==>
                  ra.value != {} && RefusedTarget(norm, request.effect) && a.paths == [] && b.paths != [])
  {
    var effect := request.effect;
    if effect.domain == "filesystem" {
      if effect.target.Some? {
        FilesystemReasonsGrow(norm, s.profile, effect, a, b);
      }
    } else if effect.domain == "network" {
      if DestinationAllowed(TargetText(effect), a.destinations) {
        FewerNamesFewerHosts(TargetText(effect), a.destinations, b.destinations);
      }
    } else if effect.domain == "browser" {
      assert Holds(TargetText(effect), a.browsers) ==> Holds(TargetText(effect), b.browsers);
    }
  }

  lemma FilesystemReasonsGrow(norm: Normaliser, profile: Profile, effect: Effect, a: Scope, b: Scope)
    requires ScopeNarrower(norm, a, b) && AllNormalize(norm, a.paths) && AllNormalize(norm, b.paths)
    requires effect.target.Some?
    ensures var ra, rb := FilesystemReasons(norm, profile, effect, a), FilesystemReasons(norm, profile, effect, b);
            && (ra.Ok? && rb.Ok? ==> rb.value <= ra.value)
            && (ra.Ok? && rb.Refused? ==>
                  ra.value != {} && norm(effect.target.value).Refused? && a.paths == [] && b.paths != [])
  {
    hide AnyWithin, Admits;
    AnyWithinMeaning(norm, effect.target.value, a.paths);
    AnyWithinMeaning(norm, effect.target.value, b.paths);
    NothingAdmits(norm, b.paths);
  }

  lemma NothingAdmits(norm: Normaliser, prefixes: seq<string>)
    ensures prefixes == [] ==> forall t :: !Admits(norm, t, prefixes)
  {
  }

  // ----- decisions

  function Severity(s: Status): nat {
    match s
    case Allow => 0
    case ApprovalRequired => 1
    case Deny => 2
  }

  /** What the looser input refuses the stricter one refuses; otherwise every reason for the looser denial
      is a reason for the stricter one, every scope list and budget admits no more, and the status only
      moves from allow through approval to deny. */
  ghost predicate AtLeastAsStrict(norm: Normaliser, a: Result<Decision>, b: Result<Decision>) {
    a.Ok? ==>
      && b.Ok?
      && Severity(a.value.status) >= Severity(b.value.status)
      && (b.value.status == Deny ==> forall c :: c in b.value.reasonCodes ==> c in a.value.reasonCodes)
      && ScopeNarrower(norm, a.value.scope, b.value.scope)
      && BudgetsNarrower(a.value.budgets, b.value.budgets)
  }

  /** The one way a refusal is lost: the looser evaluation refuses the target, and the stricter one, with no
      prefix left to test it against, denies it. */
  ghost predicate TargetDropped(norm: Normaliser, effect: Effect, base: Scope, a: Result<Decision>, b: Result<Decision>)
  {
    && RefusedTarget(norm, effect) && base.paths != []
    && b.Refused? && a.Ok? && a.value.status == Deny && a.value.scope.paths == []
  }

  lemma StatusMonotone(ra: set<string>, na: bool, rb: set<string>, nb: bool, approved: bool)
    requires rb <= ra && (nb ==> na)
    ensures Severity(StatusOf(ra, na, approved)) >= Severity(StatusOf(rb, nb, approved))
    ensures StatusOf(rb, nb, approved) == Deny ==>
              forall c :: c in CodesOf(rb, nb, approved) ==> c in CodesOf(ra, na, approved)
  {
  }

  lemma NeedsApprovalMonotone(a: string, b: string, risk: string)
    requires ApprovalRank(a) >= ApprovalRank(b)
    ensures NeedsApproval(b, risk) ==> NeedsApproval(a, risk)
  {
  }

  lemma OverlayReasonsGrow(s: Setting, a: Folded, b: Folded)
    requires DeniesMore(a, b)
    ensures OverlayReasons(s, b) <= OverlayReasons(s, a)
  {
  }

  lemma ConcludeMonotone(norm: Normaliser, request: Request, s: Setting, a: Folded, b: Folded)
    requires Narrower(norm, a, b)
    requires AllNormalize(norm, Widen(a.scope, s.widened).paths) && AllNormalize(norm, Widen(b.scope, s.widened).paths)
    ensures || AtLeastAsStrict(norm, Conclude(norm, request, s, a), Conclude(norm, request, s, b))
            || TargetDropped(norm, request.effect, Widen(b.scope, s.widened),
                             Conclude(norm, request, s, a), Conclude(norm, request, s, b))
  {
    hide Widen, EffectReasons, OverlayReasons, ScopeNarrower, BudgetsNarrower, NeedsApproval, ApprovalRank, DeniesMore,
      CodesOf, StatusOf, AllNormalize, RefusedTarget;
    var sa, sb := Widen(a.scope, s.widened), Widen(b.scope, s.widened);
    WidenNarrower(norm, a.scope, b.scope, s.widened);
    EffectReasonsGrow(norm, request, s, sa, sb);
    OverlayReasonsGrow(s, a, b);
    NeedsApprovalMonotone(a.approvalPolicy, b.approvalPolicy, s.risk);
    var ea := EffectReasons(norm, s.profileId, s.profile, request.context, request.effect, sa);
    var eb := EffectReasons(norm, s.profileId, s.profile, request.context, request.effect, sb);
    if ea.Ok? {
      var ra := s.reasons + OverlayReasons(s, a) + ea.value;
      if eb.Ok? {
        var rb := s.reasons + OverlayReasons(s, b) + eb.value;
        StatusMonotone(ra, NeedsApproval(a.approvalPolicy, s.risk), rb, NeedsApproval(b.approvalPolicy, s.risk),
            s.approved);
      } else {
        ReasonsDeny(ra, NeedsApproval(a.approvalPolicy, s.risk), s.approved);
      }
    }
  }

  lemma ReasonsDeny(reasons: set<string>, needs: bool, approved: bool)
    requires reasons != {}
    ensures StatusOf(reasons, needs, approved) == Deny
  {
  }

  // ----- restored paths stay under the base

  lemma {:induction false} RestoredPaths(norm: Normaliser, base: seq<string>, items: seq<string>)
    requires RestorePaths(norm, base, items).Ok? && AllNormalize(norm, base)
    ensures forall p :: p in RestorePaths(norm, base, items).value.0 ==>
              norm(p).Ok? && Admits(norm, norm(p).value, base)
  {
    if items != [] {
      RestoredPaths(norm, base, items[1..]);
      AnyWithinMeaning(norm, norm(items[0]).value, base);
    }
  }

  /** What a settled widening may add: only what the base scope admits. */
  ghost predicate WidenedUnder(norm: Normaliser, w: Widened, base: Scope) {
    && (forall p :: p in w.paths ==> norm(p).Ok? && Admits(norm, norm(p).value, base.paths))
    && (forall h :: h in w.destinations ==> exists r :: DestinationAllowed(r, base.destinations) && h == Lower(r))
    && (forall x :: x in w.browsers ==> Holds(x, base.browsers))
    && (forall x :: x in w.leases ==> x in base.leases)
  }

  lemma WideningStaysUnder(norm: Normaliser, base: Scope, w: Widening)
    requires AllNormalize(norm, base.paths) && WideningStep(norm, base, w).Ok?
    ensures WidenedUnder(norm, WideningStep(norm, base, w).value.0, base)
  {
    hide DestinationAllowed, Admits, AllNormalize, RestorePaths, StringList, ValidApproval;
    var step := WideningStep(norm, base, w).value.0;
    if step != NOTHING {
      assert step == ReadWidening(norm, base, w).value;
      var paths := StringList(w.restorePaths).value;
      RestoredPaths(norm, base.paths, paths);
    }
  }

  lemma SettledNormalize(norm: Normaliser, prefixes: seq<string>)
    requires Settled(norm, prefixes)
    ensures AllNormalize(norm, prefixes)
  {
  }

  lemma WidenedNormalize(norm: Normaliser, scope: Scope, w: Widened, base: Scope)
    requires Settled(norm, scope.paths) && WidenedUnder(norm, w, base)
    ensures AllNormalize(norm, Widen(scope, w).paths)
  {
    hide AddNames;
    forall p | p in Widen(scope, w).paths ensures norm(p).Ok? {
      AddedNames(scope.paths, w.paths, p);
    }
  }

  lemma SettingFacts(norm: Normaliser, request: Request, config: Config)
    requires Settle(norm, request, config).Ok?
    ensures var s := Settle(norm, request, config).value;
            WideningStep(norm, s.base, request.widening).Ok?
            && s.widened == WideningStep(norm, s.base, request.widening).value.0
            && (forall f :: f in s.budgets ==> f in s.ceiling && s.budgets[f] <= s.ceiling[f])
  {
    hide BaseScope, WideningStep, BindingReasons, ProfileBudgets, BadRequestedBudget, ValidApproval, BlankBinding,
      Strip;
  }

  lemma SettleIgnoresOverlays(norm: Normaliser, request: Request, config: Config, overlays: seq<Overlay>)
    ensures Settle(norm, request.(overlays := overlays), config) == Settle(norm, request, config)
  {
    hide BaseScope, WideningStep, BindingReasons, ProfileBudgets, BadRequestedBudget, ValidApproval, BlankBinding,
      Strip;
  }

  // ----- the side conditions

  /** The base prefixes are their own normal forms and no lease is literally "*". */
  ghost predicate OrdinaryBase(norm: Normaliser, request: Request, config: Config) {
    Settle(norm, request, config).Ok? ==>
      var base := Settle(norm, request, config).value.base;
      Settled(norm, base.paths) && ANY !in base.leases
  }

  /** Every overlay prefix normalises to a settled path. */
  ghost predicate OrdinaryOverlays(norm: Normaliser, overlays: seq<Overlay>) {
    forall o :: o in overlays && ReadOverlay(norm, o).Ok? && ReadOverlay(norm, o).value.paths.Some? ==>
      Settled(norm, ReadOverlay(norm, o).value.paths.value)
  }

  lemma ReadSettled(norm: Normaliser, overlays: seq<Overlay>)
    requires OrdinaryOverlays(norm, overlays) && ReadAll(norm, overlays).Ok?
    ensures SettledPaths(norm, ReadAll(norm, overlays).value)
  {
    hide ReadOverlay, Settled;
    ReadAllMembers(norm, overlays);
  }

  lemma ReadSubset(norm: Normaliser, few: seq<Overlay>, more: seq<Overlay>)
    requires forall o :: o in few ==> o in more
    requires ReadAll(norm, more).Ok?
    ensures ReadAll(norm, few).Ok?
    ensures forall n :: n in ReadAll(norm, few).value ==> n in ReadAll(norm, more).value
  {
    hide ReadOverlay, ReadAll;
    ReadAllMembers(norm, few);
    ReadAllMembers(norm, more);
  }

  // ----- theorem 1: overlays never relax

  /** The outcome with more overlays is at least as strict, but for a refused target. */
  ghost predicate NarrowedOutcome(norm: Normaliser, request: Request, config: Config, a: Result<Decision>,
      b: Result<Decision>)
  {
    || AtLeastAsStrict(norm, a, b)
    || (Settle(norm, request, config).Ok?
        && TargetDropped(norm, request.effect, Settle(norm, request, config).value.base, a, b))
  }

  lemma InOrderMonotone(norm: Normaliser, request: Request, config: Config, few: seq<Overlay>, more: seq<Overlay>)
    requires OrdinaryBase(norm, request, config) && OrdinaryOverlays(norm, more)
    requires forall o :: o in few ==> o in more
    ensures NarrowedOutcome(norm, request, config, EvaluateInOrder(norm, request, config, more),
                            EvaluateInOrder(norm, request, config, few))
  {
    hide Settle, FoldOverlays, Conclude, ReadAll, Settled, Narrower, SettledPaths, AtLeastAsStrict, Widen, AllNormalize,
      WidenedUnder, WideningStep, FoldNarrowings, ReadOverlay, RefusedTarget, Admits;
    var settled := Settle(norm, request, config);
    var a := EvaluateInOrder(norm, request, config, more);
    if a.Ok? {
      var s := settled.value;
      var st := Start(s);
      FoldReads(norm, st, more);
      FoldReads(norm, st, few);
      ReadSubset(norm, few, more);
      ReadSettled(norm, more);
      var nm, nf := ReadAll(norm, more).value, ReadAll(norm, few).value;
      FewSettled(norm, nf, nm);
      MoreOverlaysNarrow(norm, st, nf, nm);
      FoldPaths(norm, st, nm);
      FoldPaths(norm, st, nf);
      SettingFacts(norm, request, config);
      SettledNormalize(norm, s.base.paths);
      WideningStaysUnder(norm, s.base, request.widening);
      var fm, ff := FoldNarrowings(norm, st, nm).value, FoldNarrowings(norm, st, nf).value;
      WidenedNormalize(norm, fm.scope, s.widened, s.base);
      WidenedNormalize(norm, ff.scope, s.widened, s.base);
      ConcludeMonotone(norm, request, s, fm, ff);
      NothingFromNothing(norm, ff.scope, s.widened, s.base);
    } else {
      RefusedIsStrict(norm, EvaluateInOrder(norm, request, config, few));
    }
  }

  /** A scope under a base without prefixes has none, also after a widening. */
  lemma NothingFromNothing(norm: Normaliser, scope: Scope, w: Widened, base: Scope)
    requires Settled(norm, scope.paths) && WidenedUnder(norm, w, base)
    requires forall t :: Admits(norm, t, scope.paths) ==> Admits(norm, t, base.paths)
    ensures base.paths == [] ==> Widen(scope, w).paths == []
  {
    hide AddNames;
    if base.paths == [] && Widen(scope, w).paths != [] {
      var p := Widen(scope, w).paths[0];
      AddedNames(scope.paths, w.paths, p);
      assert p in scope.paths ==> Admits(norm, NormalOf(norm, p), scope.paths);
      NothingAdmits(norm, base.paths);
    }
  }

  lemma RefusedIsStrict(norm: Normaliser, b: Result<Decision>)
    ensures AtLeastAsStrict(norm, Refused, b)
  {
  }

  lemma FewSettled(norm: Normaliser, few: seq<Narrowing>, more: seq<Narrowing>)
    requires SettledPaths(norm, more) && forall n :: n in few ==> n in more
    ensures SettledPaths(norm, few)
  {
  }

  /** Evaluating with more overlays, at any layer and position, is at least as strict: also after an
      approved widening. */
  lemma AddingOverlaysNeverRelaxes(norm: Normaliser, request: Request, config: Config, more: seq<Overlay>)
    requires OrdinaryBase(norm, request, config) && OrdinaryOverlays(norm, more)
    requires forall o :: o in request.overlays ==> o in more
    ensures NarrowedOutcome(norm, request, config, Evaluate(norm, request.(overlays := more), config),
                            Evaluate(norm, request, config))
  {
    hide AtLeastAsStrict, TargetDropped, EvaluateInOrder, Settle, ValidKey, KeyLess, ReadOverlay, Settled;
    var widened := request.(overlays := more);
    var ordered := OrderOverlays(more);
    SortBySpec(KeyLess, more);
    SortBySpec(KeyLess, request.overlays);
    InOrderIgnoresList(norm, request, config, more, SortBy(KeyLess, more));
    if ordered.Ok? {
      assert forall o :: o in request.overlays ==> ValidKey(o);
      InOrderMonotone(norm, request, config, SortBy(KeyLess, request.overlays), SortBy(KeyLess, more));
    } else {
      RefusedIsStrict(norm, Evaluate(norm, request, config));
    }
  }

  lemma InOrderIgnoresList(norm: Normaliser, request: Request, config: Config, overlays: seq<Overlay>,
      ordered: seq<Overlay>)
    ensures EvaluateInOrder(norm, request.(overlays := overlays), config, ordered)
            == EvaluateInOrder(norm, request, config, ordered)
  {
    hide Settle, FoldOverlays, Widen, EffectReasons, OverlayReasons, CodesOf, StatusOf, NeedsApproval;
    SettleIgnoresOverlays(norm, request, config, overlays);
  }
}
