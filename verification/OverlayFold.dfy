/** What folding any number of overlays means: each part of the folded state is characterised by the
    starting state and the set of overlays, not by their order or number. */
module OverlayFold {
  import opened Wrappers
  import opened Text
  import opened PolicyScope
  import opened PolicyEngine

  function FoldNarrowings(norm: Normaliser, st: Folded, ns: seq<Narrowing>): Result<Folded>
    decreases |ns|
  {
    if ns == [] then Ok(st)
    else
      var next :- Apply(norm, st, ns[0]);
      FoldNarrowings(norm, next, ns[1..])
  }

  function ReadAll(norm: Normaliser, overlays: seq<Overlay>): Result<seq<Narrowing>> {
    if overlays == [] then Ok([])
    else
      var n :- ReadOverlay(norm, overlays[0]);
      var rest :- ReadAll(norm, overlays[1..]);
      Ok([n] + rest)
  }

  /** Reading the overlays one by one or all beforehand is the same. */
  lemma {:induction false} FoldReads(norm: Normaliser, st: Folded, overlays: seq<Overlay>)
    ensures FoldOverlays(norm, st, overlays) ==
            match ReadAll(norm, overlays)
            case Refused => Refused
            case Ok(ns) => FoldNarrowings(norm, st, ns)
    decreases |overlays|
  {
    hide ReadOverlay, Apply;
    if overlays != [] {
      var read := ReadOverlay(norm, overlays[0]);
      if read.Ok? {
        var next := Apply(norm, st, read.value);
        if next.Ok? {
          FoldReads(norm, next.value, overlays[1..]);
        }
        var rest := ReadAll(norm, overlays[1..]);
        if rest.Ok? {
          assert ([read.value] + rest.value)[1..] == rest.value;
        }
      }
    }
  }

  lemma {:induction false} ReadAllMembers(norm: Normaliser, overlays: seq<Overlay>)
    ensures ReadAll(norm, overlays).Ok? <==> forall o :: o in overlays ==> ReadOverlay(norm, o).Ok?
    ensures ReadAll(norm, overlays).Ok? ==>
              forall n :: n in ReadAll(norm, overlays).value <==>
                  exists o :: o in overlays && ReadOverlay(norm, o) == Ok(n)
  {
    hide ReadOverlay;
    if overlays != [] {
      ReadAllMembers(norm, overlays[1..]);
      assert forall o :: o in overlays <==> o == overlays[0] || o in overlays[1..];
    }
  }

  // ----- one overlay, seen by one name

  ghost predicate Passes(norm: Normaliser, t: string, n: Narrowing) {
    n.paths.Some? ==> Admits(norm, t, n.paths.value)
  }

  ghost predicate Names(x: string, constraint: Option<seq<string>>) {
    constraint.Some? ==> Holds(x, constraint.value)
  }

  ghost predicate SettledPaths(norm: Normaliser, ns: seq<Narrowing>) {
    forall n :: n in ns && n.paths.Some? ==> Settled(norm, n.paths.value)
  }

  /** Path prefixes: after the fold a path is admitted iff the start and every overlay admit it. */
  lemma {:induction false} FoldPaths(norm: Normaliser, st: Folded, ns: seq<Narrowing>)
    requires Settled(norm, st.scope.paths) && SettledPaths(norm, ns)
    requires FoldNarrowings(norm, st, ns).Ok?
    ensures var r := FoldNarrowings(norm, st, ns).value;
            && Settled(norm, r.scope.paths)
            && (forall t :: Admits(norm, t, r.scope.paths) <==>
                  Admits(norm, t, st.scope.paths) && forall n :: n in ns ==> Passes(norm, t, n))
    decreases |ns|
  {
    hide PathMeet, Admits, Settled;
    if ns != [] {
      var next := Apply(norm, st, ns[0]).value;
      if ns[0].paths.Some? {
        PathMeetExact(norm, st.scope.paths, ns[0].paths.value);
      }
      FoldPaths(norm, next, ns[1..]);
      assert forall n :: n in ns <==> n == ns[0] || n in ns[1..];
    }
  }

  /** The path is the normal form of a prefix of the start or of an overlay. */
  ghost predicate ListedForm(norm: Normaliser, p: string, st: Folded, ns: seq<Narrowing>) {
    FormIn(norm, p, st.scope.paths) || exists n :: n in ns && n.paths.Some? && FormIn(norm, p, n.paths.value)
  }

  ghost predicate ConstrainsPaths(ns: seq<Narrowing>) {
    exists n :: n in ns && n.paths.Some?
  }

  /** Once an overlay constrains the paths, the folded prefixes are exactly the normal forms of listed
      prefixes that lie within all the lists; until then the list is the one it started as. */
  lemma {:induction false} FoldPathMembers(norm: Normaliser, st: Folded, ns: seq<Narrowing>, p: string)
    requires Settled(norm, st.scope.paths) && SettledPaths(norm, ns)
    requires FoldNarrowings(norm, st, ns).Ok?
    ensures ConstrainsPaths(ns) ==>
              (p in FoldNarrowings(norm, st, ns).value.scope.paths <==>
               ListedForm(norm, p, st, ns) && Admits(norm, p, st.scope.paths)
               && forall n :: n in ns ==> Passes(norm, p, n))
    ensures !ConstrainsPaths(ns) ==> FoldNarrowings(norm, st, ns).value.scope.paths == st.scope.paths
    decreases |ns|
  {
    hide PathMeet, Admits, Settled, FormIn;
    if ns != [] {
      var n0, rest := ns[0], ns[1..];
      var next := Apply(norm, st, n0).value;
      assert forall n :: n in ns <==> n == n0 || n in rest;
      if n0.paths.Some? {
        PathMeetExact(norm, st.scope.paths, n0.paths.value);
        OwnForms(norm, p, next.scope.paths);
      }
      FormsAreFixed(norm, st.scope.paths, p);
      if n0.paths.Some? {
        FormsAreFixed(norm, n0.paths.value, p);
      }
      FoldPathMembers(norm, next, rest, p);
    }
  }

  lemma OwnForms(norm: Normaliser, p: string, prefixes: seq<string>)
    requires forall q :: q in prefixes ==> norm(q) == Ok(q)
    ensures FormIn(norm, p, prefixes) <==> p in prefixes
  {
  }

  lemma OwnPrefix(norm: Normaliser, p: string, prefixes: seq<string>)
    requires p in prefixes && Settled(norm, prefixes)
    ensures norm(p).Ok? && Admits(norm, NormalOf(norm, p), prefixes)
  {
  }

  /** Names: destinations, browser profiles and leases fold to the meet of what the lists name. */
  lemma {:induction false} FoldNames(norm: Normaliser, st: Folded, ns: seq<Narrowing>, x: string)
    requires FoldNarrowings(norm, st, ns).Ok?
    ensures var s, r := st.scope, FoldNarrowings(norm, st, ns).value.scope;
            && (Holds(x, r.destinations) <==>
                  Holds(x, s.destinations) && forall n :: n in ns ==> Names(x, n.destinations))
            && (Holds(x, r.browsers) <==> Holds(x, s.browsers) && forall n :: n in ns ==> Names(x, n.browsers))
            && (Holds(x, r.leases) <==> Holds(x, s.leases) && forall n :: n in ns ==> Names(x, n.leases))
            && (ANY !in s.leases ==> ANY !in r.leases)
    decreases |ns|
  {
    hide Holds, Meet, PathMeet;
    if ns != [] {
      var n0 := ns[0];
      var next := Apply(norm, st, n0).value;
      assert forall n :: n in ns <==> n == n0 || n in ns[1..];
      if n0.destinations.Some? { MeetIsMeet(x, st.scope.destinations, n0.destinations.value); }
      if n0.browsers.Some? { MeetIsMeet(x, st.scope.browsers, n0.browsers.value); }
      if n0.leases.Some? { MeetIsMeet(x, st.scope.leases, n0.leases.value); }
      FoldNames(norm, next, ns[1..], x);
    }
  }

  /** Budgets: the least of the start and of every valid limit. */
  lemma {:induction false} FoldBudgets(norm: Normaliser, st: Folded, ns: seq<Narrowing>, f: string)
    requires FoldNarrowings(norm, st, ns).Ok? && f in st.budgets
    ensures var r := FoldNarrowings(norm, st, ns).value;
            && f in r.budgets && r.budgets[f] <= st.budgets[f]
            && (forall n :: n in ns && f in n.maxBudgets && n.maxBudgets[f] >= 0 ==> r.budgets[f] <= n.maxBudgets[f])
            && (r.budgets[f] == st.budgets[f]
                || exists n :: n in ns && f in n.maxBudgets && n.maxBudgets[f] >= 0 && r.budgets[f] == n.maxBudgets[f])
    decreases |ns|
  {
    hide PathMeet, Meet;
    if ns != [] {
      var next := Apply(norm, st, ns[0]).value;
      assert forall n :: n in ns <==> n == ns[0] || n in ns[1..];
      FoldBudgets(norm, next, ns[1..], f);
    }
  }

  lemma {:induction false} FoldBudgetKeys(norm: Normaliser, st: Folded, ns: seq<Narrowing>)
    requires FoldNarrowings(norm, st, ns).Ok?
    ensures var r := FoldNarrowings(norm, st, ns).value;
            && r.budgets.Keys == st.budgets.Keys
            && (r.badBudget <==> st.badBudget || exists n :: n in ns && BadOverlayBudget(st.budgets, n.maxBudgets))
    decreases |ns|
  {
    hide PathMeet, Meet, BadOverlayBudget;
    if ns != [] {
      var next := Apply(norm, st, ns[0]).value;
      assert forall n :: n in ns <==> n == ns[0] || n in ns[1..];
      assert next.budgets.Keys == st.budgets.Keys;
      forall limits ensures BadOverlayBudget(next.budgets, limits) <==> BadOverlayBudget(st.budgets, limits) {
        SameKeysSameVerdict(next.budgets, st.budgets, limits);
      }
      FoldBudgetKeys(norm, next, ns[1..]);
    }
  }

  lemma SameKeysSameVerdict(a: Budgets, b: Budgets, limits: Budgets)
    requires a.Keys == b.Keys
    ensures BadOverlayBudget(a, limits) <==> BadOverlayBudget(b, limits)
  {
    assert forall f :: f in a <==> f in b by {
      forall f ensures f in a <==> f in b {
        assert f in a.Keys <==> f in b.Keys;
      }
    }
  }

  /** Denials accumulate. */
  lemma {:induction false} FoldDenials(norm: Normaliser, st: Folded, ns: seq<Narrowing>, x: string)
    requires FoldNarrowings(norm, st, ns).Ok?
    ensures var r := FoldNarrowings(norm, st, ns).value;
            && (x in r.deniedCapabilities <==> x in st.deniedCapabilities || exists n :: n in ns && x in n.capabilities)
            && (x in r.deniedTools <==> x in st.deniedTools || exists n :: n in ns && x in n.tools)
            && (r.forceDeny <==> st.forceDeny || exists n :: n in ns && n.forceDeny)
    decreases |ns|
  {
    hide PathMeet, Meet, BadOverlayBudget;
    if ns != [] {
      var next := Apply(norm, st, ns[0]).value;
      assert forall n :: n in ns <==> n == ns[0] || n in ns[1..];
      FoldDenials(norm, next, ns[1..], x);
    }
  }

  /** The approval policy: the strictest of the start and of every overlay that sets one. */
  lemma {:induction false} FoldPolicy(norm: Normaliser, st: Folded, ns: seq<Narrowing>)
    requires FoldNarrowings(norm, st, ns).Ok?
    ensures var r := ApprovalRank(FoldNarrowings(norm, st, ns).value.approvalPolicy);
            && r >= ApprovalRank(st.approvalPolicy)
            && (forall n :: n in ns && n.approvalPolicy.Some? ==> r >= ApprovalRank(n.approvalPolicy.value))
            && (r == ApprovalRank(st.approvalPolicy)
                || exists n :: n in ns && n.approvalPolicy.Some? && r == ApprovalRank(n.approvalPolicy.value))
    decreases |ns|
  {
    hide PathMeet, Meet, BadOverlayBudget, ApprovalRank;
    if ns != [] {
      var next := Apply(norm, st, ns[0]).value;
      assert forall n :: n in ns <==> n == ns[0] || n in ns[1..];
      FoldPolicy(norm, next, ns[1..]);
    }
  }

  ghost predicate KnownPolicies(st: Folded, ns: seq<Narrowing>) {
    forall n :: n in ns && n.approvalPolicy.Some? ==>
      ApprovalRank(st.approvalPolicy) >= 0 && ApprovalRank(n.approvalPolicy.value) >= 0
  }

  /** On settled prefixes the fold refuses only an approval policy it does not know. */
  lemma {:induction false} FoldSucceeds(norm: Normaliser, st: Folded, ns: seq<Narrowing>)
    requires Settled(norm, st.scope.paths) && SettledPaths(norm, ns)
    ensures FoldNarrowings(norm, st, ns).Ok? <==> KnownPolicies(st, ns)
    decreases |ns|
  {
    hide PathMeet, Meet, BadOverlayBudget, Settled, ApprovalRank;
    if ns != [] {
      assert forall n :: n in ns <==> n == ns[0] || n in ns[1..];
      if ns[0].paths.Some? {
        PathMeetExact(norm, st.scope.paths, ns[0].paths.value);
      }
      var applied := Apply(norm, st, ns[0]);
      if applied.Ok? {
        FoldSucceeds(norm, applied.value, ns[1..]);
      }
    }
  }
}
