/** Overlay order is irrelevant to the policy engine's verdict, with or without the layer sort. */
module PolicyOrder {
  import opened Wrappers
  import opened Text
  import opened Sorting
  import opened PolicyScope
  import opened PolicyEngine
  import opened OverlayFold
  import opened PolicyTheorems

  /** The two scopes hold the same prefixes and name the same things. */
  ghost predicate SameScope(norm: Normaliser, a: Scope, b: Scope) {
    && ScopeNarrower(norm, a, b) && ScopeNarrower(norm, b, a)
    && forall p :: p in a.paths <==> p in b.paths
  }

  ghost predicate SameVerdict(norm: Normaliser, a: Result<Decision>, b: Result<Decision>) {
    && (a.Ok? <==> b.Ok?)
    && (a.Ok? ==>
          && a.value.status == b.value.status && a.value.reasonCodes == b.value.reasonCodes
          && a.value.budgets == b.value.budgets
          && SameScope(norm, a.value.scope, b.value.scope)
          && (a.value.grant.Some? <==> b.value.grant.Some?))
  }

  lemma SameEffectReasons(norm: Normaliser, request: Request, s: Setting, a: Scope, b: Scope)
    requires SameScope(norm, a, b) && AllNormalize(norm, a.paths) && AllNormalize(norm, b.paths)
    ensures EffectReasons(norm, s.profileId, s.profile, request.context, request.effect, a)
         == EffectReasons(norm, s.profileId, s.profile, request.context, request.effect, b)
  {
    hide AnyWithin, Admits, AllNormalize, ScopeNarrower;
    EffectReasonsGrow(norm, request, s, a, b);
    EffectReasonsGrow(norm, request, s, b, a);
    var ra := EffectReasons(norm, s.profileId, s.profile, request.context, request.effect, a);
    var rb := EffectReasons(norm, s.profileId, s.profile, request.context, request.effect, b);
    if request.effect.domain == "filesystem" && request.effect.target.Some? {
      AnyWithinMeaning(norm, request.effect.target.value, a.paths);
      AnyWithinMeaning(norm, request.effect.target.value, b.paths);
      if a.paths != [] {
        assert a.paths[0] in b.paths;
      }
      if b.paths != [] {
        assert b.paths[0] in a.paths;
      }
    }
    assert ra.Ok? <==> rb.Ok?;
  }

  lemma ConcludeSame(norm: Normaliser, request: Request, s: Setting, a: Folded, b: Folded)
    requires Narrower(norm, a, b) && Narrower(norm, b, a)
    requires forall p :: p in a.scope.paths <==> p in b.scope.paths
    requires AllNormalize(norm, Widen(a.scope, s.widened).paths) && AllNormalize(norm, Widen(b.scope, s.widened).paths)
    ensures SameVerdict(norm, Conclude(norm, request, s, a), Conclude(norm, request, s, b))
  {
    hide EffectReasons, OverlayReasons, ScopeNarrower, NeedsApproval, ApprovalRank, DeniesMore, CodesOf, StatusOf,
      AllNormalize, AddNames;
    var sa, sb := Widen(a.scope, s.widened), Widen(b.scope, s.widened);
    WidenNarrower(norm, a.scope, b.scope, s.widened);
    WidenNarrower(norm, b.scope, a.scope, s.widened);
    forall p ensures p in sa.paths <==> p in sb.paths {
      AddedNames(a.scope.paths, s.widened.paths, p);
      AddedNames(b.scope.paths, s.widened.paths, p);
    }
    SameEffectReasons(norm, request, s, sa, sb);
    OverlayReasonsGrow(s, a, b);
    OverlayReasonsGrow(s, b, a);
    NeedsApprovalMonotone(a.approvalPolicy, b.approvalPolicy, s.risk);
    NeedsApprovalMonotone(b.approvalPolicy, a.approvalPolicy, s.risk);
    SameBudgets(a.budgets, b.budgets);
    assert OverlayReasons(s, a) == OverlayReasons(s, b);
    assert NeedsApproval(a.approvalPolicy, s.risk) == NeedsApproval(b.approvalPolicy, s.risk);
  }

  lemma SameBudgets(a: Budgets, b: Budgets)
    requires BudgetsNarrower(a, b) && BudgetsNarrower(b, a)
    ensures a == b
  {
    forall f | f in a ensures a[f] == b[f] {
      assert f in b.Keys;
    }
  }

  lemma SamePathMembers(norm: Normaliser, st: Folded, p: seq<Narrowing>, q: seq<Narrowing>)
    requires Settled(norm, st.scope.paths) && SettledPaths(norm, p) && SettledPaths(norm, q)
    requires forall n :: n in p <==> n in q
    requires FoldNarrowings(norm, st, p).Ok? && FoldNarrowings(norm, st, q).Ok?
    ensures forall x :: x in FoldNarrowings(norm, st, p).value.scope.paths <==>
            x in FoldNarrowings(norm, st, q).value.scope.paths
  {
    hide FoldNarrowings, Settled, SettledPaths, Admits, Passes, FormIn;
    forall x
      ensures x in FoldNarrowings(norm, st, p).value.scope.paths <==> x in FoldNarrowings(norm, st, q).value.scope.paths
    {
      FoldPathMembers(norm, st, p, x);
      FoldPathMembers(norm, st, q, x);
    }
  }

  /** Any two lists of the same overlays, in any order and with any repetition, give the same verdict. */
  lemma OverlayOrderIrrelevant(norm: Normaliser, request: Request, config: Config, p: seq<Overlay>, q: seq<Overlay>)
    requires OrdinaryBase(norm, request, config) && OrdinaryOverlays(norm, p)
    requires forall o :: o in p <==> o in q
    ensures SameVerdict(norm, EvaluateInOrder(norm, request, config, p), EvaluateInOrder(norm, request, config, q))
  {
    hide Settle, FoldOverlays, Conclude, ReadAll, Settled, Narrower, SettledPaths, SameVerdict, Widen, AllNormalize,
      WidenedUnder, WideningStep, FoldNarrowings, ReadOverlay;
    var settled := Settle(norm, request, config);
    if settled.Ok? {
      var s := settled.value;
      var st := Start(s);
      FoldReads(norm, st, p);
      FoldReads(norm, st, q);
      ReadAllMembers(norm, p);
      ReadAllMembers(norm, q);
      if ReadAll(norm, p).Ok? {
        assert ReadAll(norm, q).Ok?;
        ReadSubset(norm, p, q);
        ReadSubset(norm, q, p);
        ReadSettled(norm, p);
        var np, nq := ReadAll(norm, p).value, ReadAll(norm, q).value;
        SameFold(norm, request, config, s, np, nq);
      } else {
        assert ReadAll(norm, q).Refused?;
        BothRefused(norm);
      }
    } else {
      BothRefused(norm);
    }
  }

  lemma BothRefused(norm: Normaliser)
    ensures SameVerdict(norm, Refused, Refused)
  {
  }

  lemma SameFold(norm: Normaliser, request: Request, config: Config, s: Setting, p: seq<Narrowing>, q: seq<Narrowing>)
    requires OrdinaryBase(norm, request, config) && Settle(norm, request, config) == Ok(s)
    requires SettledPaths(norm, p) && forall n :: n in p <==> n in q
    ensures var fp, fq := FoldNarrowings(norm, Start(s), p), FoldNarrowings(norm, Start(s), q);
            && (fp.Ok? <==> fq.Ok?)
            && (fp.Ok? ==> SameVerdict(norm, Conclude(norm, request, s, fp.value),
                  Conclude(norm, request, s, fq.value)))
    ensures SameVerdict(norm, Refused, Refused)
  {
    hide Settle, Conclude, Settled, Narrower, SettledPaths, SameVerdict, Widen, AllNormalize,
      WidenedUnder, WideningStep, FoldNarrowings;
    BothRefused(norm);
    var st := Start(s);
    FewSettled(norm, q, p);
    FoldSucceeds(norm, st, p);
    FoldSucceeds(norm, st, q);
    if FoldNarrowings(norm, st, p).Ok? {
      var fp, fq := FoldNarrowings(norm, st, p).value, FoldNarrowings(norm, st, q).value;
      MoreOverlaysNarrow(norm, st, p, q);
      MoreOverlaysNarrow(norm, st, q, p);
      FoldPaths(norm, st, p);
      FoldPaths(norm, st, q);
      SamePathMembers(norm, st, p, q);
      SettingFacts(norm, request, config);
      SettledNormalize(norm, s.base.paths);
      WideningStaysUnder(norm, s.base, request.widening);
      WidenedNormalize(norm, fp.scope, s.widened, s.base);
      WidenedNormalize(norm, fq.scope, s.widened, s.base);
      ConcludeSame(norm, request, s, fp, fq);
    }
  }

  /** The engine's own answer is the one any order of the request's overlays gives. */
  lemma LayerSortIrrelevant(norm: Normaliser, request: Request, config: Config, anyOrder: seq<Overlay>)
    requires OrdinaryBase(norm, request, config) && OrdinaryOverlays(norm, request.overlays)
    requires forall o :: o in request.overlays ==> ValidKey(o)
    requires forall o :: o in anyOrder <==> o in request.overlays
    ensures SameVerdict(norm, Evaluate(norm, request, config), EvaluateInOrder(norm, request, config, anyOrder))
  {
    hide SameVerdict, EvaluateInOrder, OrdinaryBase, ValidKey, KeyLess, ReadOverlay, Settled;
    SortBySpec(KeyLess, request.overlays);
    OverlayOrderIrrelevant(norm, request, config, SortBy(KeyLess, request.overlays), anyOrder);
  }

  // ----- the final prefix list itself

  lemma {:induction false} FoldedPathsAscend(norm: Normaliser, st: Folded, ns: seq<Narrowing>)
    requires FoldNarrowings(norm, st, ns).Ok?
    requires Text.Ascending(st.scope.paths) || exists n :: n in ns && n.paths.Some?
    ensures Text.Ascending(FoldNarrowings(norm, st, ns).value.scope.paths)
    decreases |ns|
  {
    if ns != [] {
      var next := Apply(norm, st, ns[0]).value;
      FoldedPathsAscend(norm, next, ns[1..]);
    }
  }

  lemma AscendingUnique(a: seq<string>, b: seq<string>)
    requires Text.Ascending(a) && Text.Ascending(b)
    requires forall x :: x in a <==> x in b
    ensures a == b
  {
    if b != [] {
      BothInhabited(b, a);
    }
    if a != [] {
      BothInhabited(a, b);
      AscendingHead(a, b[0]);
      AscendingHead(b, a[0]);
      StrLessTotal(a[0], b[0]);
      forall x ensures x in a[1..] <==> x in b[1..] {
        AscendingTail(a, x);
        AscendingTail(b, x);
      }
      AscendingUnique(a[1..], b[1..]);
      assert a == [a[0]] + a[1..] && b == [b[0]] + b[1..];
    }
  }

  lemma BothInhabited(a: seq<string>, b: seq<string>)
    requires a != [] && forall x :: x in a <==> x in b
    ensures b != [] && b[0] in a && a[0] in b
  {
    assert a[0] in a;
  }

  lemma AscendingHead(s: seq<string>, x: string)
    requires Text.Ascending(s) && s != []
    ensures x in s ==> x == s[0] || StrLess(s[0], x)
  {
  }

  lemma AscendingTail(s: seq<string>, x: string)
    requires Text.Ascending(s) && s != []
    ensures x in s[1..] <==> x in s && x != s[0]
  {
    StrLessTotal(s[0], s[0]);
  }

  /** Once an overlay constrains the paths, the folded list is the same for every overlay order. */
  lemma SamePathList(norm: Normaliser, st: Folded, p: seq<Narrowing>, q: seq<Narrowing>)
    requires Settled(norm, st.scope.paths) && SettledPaths(norm, p) && SettledPaths(norm, q)
    requires forall n :: n in p <==> n in q
    requires exists n :: n in p && n.paths.Some?
    requires FoldNarrowings(norm, st, p).Ok? && FoldNarrowings(norm, st, q).Ok?
    ensures FoldNarrowings(norm, st, p).value.scope.paths == FoldNarrowings(norm, st, q).value.scope.paths
  {
    hide FoldNarrowings, Settled, SettledPaths, Text.Ascending;
    SamePathMembers(norm, st, p, q);
    FoldedPathsAscend(norm, st, p);
    FoldedPathsAscend(norm, st, q);
    AscendingUnique(FoldNarrowings(norm, st, p).value.scope.paths, FoldNarrowings(norm, st, q).value.scope.paths);
  }
}
