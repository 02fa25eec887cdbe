/** What the effective budgets and scope of an evaluation are, and which requests are evaluated at all,
    written out over the raw request. */
module PolicyEffect {
  import opened Wrappers
  import opened Text
  import opened Paths
  import opened PolicyScope
  import opened PolicyEngine
  import opened OverlayFold
  import opened PolicyTheorems
  import opened PolicyDecision
  import Sorting

  // ----- the effective budgets

  /** A limit on a budget field: the profile's own, the requested one with 0 for a negative one, or a
      valid one of an overlay. */
  ghost predicate LimitOf(request: Request, config: Config, field: string, limit: int) {
    || (ProfileId(request) in config.profileBudgets && field in config.profileBudgets[ProfileId(request)]
        && config.profileBudgets[ProfileId(request)][field] == limit)
    || (field in request.requestedBudgets && limit == if request.requestedBudgets[field] < 0 then 0
                                                      else request.requestedBudgets[field])
    || (limit >= 0 && exists o :: o in request.overlays && field in o.maxBudgets && o.maxBudgets[field] == limit)
  }

  /** Every effective budget is the least of its limits. */
  lemma BudgetsExact(norm: Normaliser, request: Request, config: Config)
    requires Evaluate(norm, request, config).Ok?
    ensures var d := Evaluate(norm, request, config).value;
            && d.budgets.Keys == BUDGET_FIELDS
            && forall f :: f in BUDGET_FIELDS ==>
                 && LimitOf(request, config, f, d.budgets[f])
                 && forall limit :: LimitOf(request, config, f, limit) ==> d.budgets[f] <= limit
  {
    hide *;
    var s, ns, folded := EvaluationParts(norm, request, config);
    Concluded(norm, request, s, folded);
    SettingParts(norm, request, config, s);
    BudgetFields(request, config, s);
    FoldBudgetKeys(norm, Start(s), ns);
    StartFields(s);
    var d := Evaluate(norm, request, config).value;
    forall f | f in BUDGET_FIELDS
      ensures LimitOf(request, config, f, d.budgets[f])
           && forall limit :: LimitOf(request, config, f, limit) ==> d.budgets[f] <= limit
    {
      FieldExact(norm, request, config, s, ns, folded, f);
    }
  }

  lemma StartFields(s: Setting)
    ensures var st := Start(s);
            && st.scope == s.base && st.budgets == s.budgets && !st.badBudget
            && st.approvalPolicy == s.profile.approvalPolicy
            && st.deniedCapabilities == {} && st.deniedTools == {} && !st.forceDeny
  {
  }

  lemma FieldExact(norm: Normaliser, request: Request, config: Config, s: Setting, ns: seq<Narrowing>, folded: Folded,
      f: string)
    requires ReadOf(norm, request.overlays, ns) && FoldNarrowings(norm, Start(s), ns) == Ok(folded)
    requires s.profileId == ProfileId(request) && s.profileId in config.profileBudgets
    requires f in s.ceiling && f in config.profileBudgets[s.profileId]
    requires s.ceiling[f] == config.profileBudgets[s.profileId][f] && s.ceiling[f] >= 0
    requires s.budgets == ClampBudgets(s.ceiling, request.requestedBudgets)
    ensures f in folded.budgets && LimitOf(request, config, f, folded.budgets[f])
    ensures forall limit :: LimitOf(request, config, f, limit) ==> folded.budgets[f] <= limit
  {
    hide FoldNarrowings, ReadOverlay, ProfileId;
    FoldBudgets(norm, Start(s), ns, f);
    forall o, n | o in request.overlays && ReadOverlay(norm, o) == Ok(n) ensures n.maxBudgets == o.maxBudgets {
      OverlayFields(norm, o, n);
    }
    forall o | o in request.overlays ensures exists n :: n in ns && ReadOverlay(norm, o) == Ok(n) {
      assert ReadOverlay(norm, o).value in ns;
    }
  }

  // ----- the effective scope

  ghost predicate Approved(w: Widening) {
    Restores(w) && Trusted(w.approval)
  }

  /** The list names `x` or everything. */
  ghost predicate ReadsName(raw: seq<string>, x: string) {
    Reads(raw, x) || Reads(raw, ANY)
  }

  /** The list, in lower case, names the pattern `x` or everything. */
  ghost predicate ReadsHost(raw: seq<string>, x: string) {
    exists r :: r in raw && (Lower(Strip(r)) == x || Lower(Strip(r)) == ANY)
  }

  lemma NameReading(raw: Option<seq<string>>, read: Option<seq<string>>, x: string)
    requires OptionalList(raw) == Ok(read)
    ensures Names(x, read) <==> (raw.Some? ==> ReadsName(raw.value, x))
  {
    hide StripAll, Reads, AnyBlank;
    if raw.Some? {
      StripAllReads(raw.value, x);
      StripAllReads(raw.value, ANY);
    }
  }

  lemma HostReading(raw: Option<seq<string>>, read: Option<seq<string>>, x: string)
    requires OptionalHosts(raw) == Ok(read)
    ensures Names(x, read) <==> (raw.Some? ==> ReadsHost(raw.value, x))
  {
    hide Strip, Lower, AnyBlank;
    if raw.Some? {
      LoweredReads(raw.value, x);
      LoweredReads(raw.value, ANY);
    }
  }

  lemma LoweredReads(raw: seq<string>, x: string)
    ensures x in LowerAll(StripAll(raw)) <==> exists r :: r in raw && Lower(Strip(r)) == x
  {
    hide Strip, Lower;
    if r :| r in raw && Lower(Strip(r)) == x {
      var i :| 0 <= i < |raw| && raw[i] == r;
      assert LowerAll(StripAll(raw))[i] == x;
    }
  }

  lemma OverlayLists(norm: Normaliser, o: Overlay, n: Narrowing)
    requires ReadOverlay(norm, o) == Ok(n)
    ensures OptionalPaths(norm, o.pathPrefixes) == Ok(n.paths)
    ensures OptionalHosts(o.networkDestinations) == Ok(n.destinations)
    ensures OptionalList(o.browserProfiles) == Ok(n.browsers) && OptionalList(o.secretLeaseIds) == Ok(n.leases)
  {
    hide OptionalPaths, OptionalHosts, OptionalList, Elements, StripAll;
  }

  /** Every overlay that lists destinations, browser profiles or leases lets the name through. */
  ghost predicate HostsPass(request: Request, x: string) {
    forall o :: o in request.overlays && o.networkDestinations.Some? ==> ReadsHost(o.networkDestinations.value, x)
  }

  ghost predicate BrowsersPass(request: Request, x: string) {
    forall o :: o in request.overlays && o.browserProfiles.Some? ==> ReadsName(o.browserProfiles.value, x)
  }

  ghost predicate LeasesPass(request: Request, x: string) {
    forall o :: o in request.overlays && o.secretLeaseIds.Some? ==> ReadsName(o.secretLeaseIds.value, x)
  }

  lemma OverlayNames(norm: Normaliser, request: Request, ns: seq<Narrowing>, x: string)
    requires ReadOf(norm, request.overlays, ns)
    ensures (forall n :: n in ns ==> Names(x, n.destinations)) <==> HostsPass(request, x)
    ensures (forall n :: n in ns ==> Names(x, n.browsers)) <==> BrowsersPass(request, x)
    ensures (forall n :: n in ns ==> Names(x, n.leases)) <==> LeasesPass(request, x)
  {
    hide ReadOverlay, Names, ReadsHost, ReadsName;
    forall o, n | o in request.overlays && ReadOverlay(norm, o) == Ok(n)
      ensures Names(x, n.destinations) <==>
              (o.networkDestinations.Some? ==> ReadsHost(o.networkDestinations.value, x))
      ensures Names(x, n.browsers) <==> (o.browserProfiles.Some? ==> ReadsName(o.browserProfiles.value, x))
      ensures Names(x, n.leases) <==> (o.secretLeaseIds.Some? ==> ReadsName(o.secretLeaseIds.value, x))
    {
      OverlayLists(norm, o, n);
      HostReading(o.networkDestinations, n.destinations, x);
      NameReading(o.browserProfiles, n.browsers, x);
      NameReading(o.secretLeaseIds, n.leases, x);
    }
    forall o | o in request.overlays ensures exists n :: n in ns && ReadOverlay(norm, o) == Ok(n) {
      assert ReadOverlay(norm, o).value in ns;
    }
  }

  /** An approved widening restores the name. */
  ghost predicate RestoresHost(w: Widening, base: Scope, x: string) {
    Approved(w)
    && exists h :: h in w.restoreDestinations && Lower(Strip(h)) == x && DestinationAllowed(Strip(h), base.destinations)
  }

  ghost predicate RestoresBrowser(w: Widening, base: Scope, x: string) {
    Approved(w) && Reads(w.restoreBrowsers, x) && (ANY in base.browsers || x in base.browsers)
  }

  ghost predicate RestoresLease(w: Widening, base: Scope, x: string) {
    Approved(w) && Reads(w.restoreLeases, x) && x in base.leases
  }

  /** An approved widening restores a path that covers the path `t`. */
  ghost predicate RestoresPath(norm: Normaliser, w: Widening, base: Scope, t: string) {
    Approved(w)
    && exists p :: p in w.restorePaths && norm(Strip(p)).Ok? && Inside(norm, norm(Strip(p)).value, base.paths)
         && Covers(norm, norm(Strip(p)).value, t)
  }

  /** The path `t` lies within the prefix. */
  ghost predicate Covers(norm: Normaliser, prefix: string, t: string) {
    norm(prefix).Ok? && Within(t, norm(prefix).value)
  }

  lemma WideningNames(norm: Normaliser, base: Scope, w: Widening, x: string)
    requires WideningStep(norm, base, w).Ok?
    ensures var r := WideningStep(norm, base, w).value.0;
            && (x in r.destinations <==> RestoresHost(w, base, x))
            && (x in r.browsers <==> RestoresBrowser(w, base, x))
            && (x in r.leases <==> RestoresLease(w, base, x))
  {
    hide ReadWidening, Trusted, ValidApproval, Reads, DestinationAllowed, Strip, Lower;
    ApprovalCodes(w.approval, "");
    if Approved(w) {
      WideningAdds(norm, base, w);
    }
  }

  lemma HeldAfter(current: seq<string>, added: set<string>, x: string)
    ensures Holds(x, AddNames(current, added)) <==> Holds(x, current) || ANY in added || x in added
  {
    AddedNames(current, added, x);
    AddedNames(current, added, ANY);
  }

  /** The effective scope names a destination or a browser profile exactly when the base and all overlays
      do, or when an approved widening restores the name, or everything, from the base. */
  lemma NamesExact(norm: Normaliser, request: Request, config: Config, x: string)
    requires Evaluate(norm, request, config).Ok?
    ensures Base(norm, request, config).Ok?
    ensures var d, base := Evaluate(norm, request, config).value, Base(norm, request, config).value;
            var w := request.widening;
            && (Holds(x, d.scope.destinations) <==>
                  (Holds(x, base.destinations) && HostsPass(request, x))
                  || RestoresHost(w, base, x) || RestoresHost(w, base, ANY))
            && (Holds(x, d.scope.browsers) <==>
                  (Holds(x, base.browsers) && BrowsersPass(request, x))
                  || RestoresBrowser(w, base, x) || RestoresBrowser(w, base, ANY))
  {
    hide *;
    var s, ns, f := EvaluationParts(norm, request, config);
    Concluded(norm, request, s, f);
    SettingParts(norm, request, config, s);
    StartFields(s);
    FoldNames(norm, Start(s), ns, x);
    OverlayNames(norm, request, ns, x);
    WideningNames(norm, s.base, request.widening, x);
    WideningNames(norm, s.base, request.widening, ANY);
    WidenParts(f.scope, s.widened);
    HeldAfter(f.scope.destinations, s.widened.destinations, x);
    HeldAfter(f.scope.browsers, s.widened.browsers, x);
  }

  lemma WidenParts(scope: Scope, w: Widened)
    ensures var r := Widen(scope, w);
            && r.paths == AddNames(scope.paths, w.paths)
            && r.destinations == AddNames(scope.destinations, w.destinations)
            && r.browsers == AddNames(scope.browsers, w.browsers) && r.leases == AddNames(scope.leases, w.leases)
  {
  }

  /** With no lease named "*" in the base, the effective leases are those the base and all overlays name and
      the restored ones. */
  lemma LeasesExact(norm: Normaliser, request: Request, config: Config, x: string)
    requires Evaluate(norm, request, config).Ok?
    requires Base(norm, request, config).Ok? ==> ANY !in Base(norm, request, config).value.leases
    ensures Base(norm, request, config).Ok?
    ensures var d, base := Evaluate(norm, request, config).value, Base(norm, request, config).value;
            x in d.scope.leases <==>
            (x in base.leases && LeasesPass(request, x)) || RestoresLease(request.widening, base, x)
  {
    hide *;
    var s, ns, f := EvaluationParts(norm, request, config);
    Concluded(norm, request, s, f);
    SettingParts(norm, request, config, s);
    StartFields(s);
    FoldNames(norm, Start(s), ns, x);
    OverlayNames(norm, request, ns, x);
    WideningNames(norm, s.base, request.widening, x);
    WidenParts(f.scope, s.widened);
    AddedNames(f.scope.leases, s.widened.leases, x);
    HeldUnlessStar(x, f.scope.leases);
    HeldUnlessStar(x, s.base.leases);
  }

  lemma HeldUnlessStar(x: string, items: seq<string>)
    requires ANY !in items
    ensures Holds(x, items) <==> x in items
  {
  }

  ghost predicate PathsPass(norm: Normaliser, request: Request, t: string) {
    forall o :: o in request.overlays && o.pathPrefixes.Some? ==>
      exists r :: r in o.pathPrefixes.value && norm(Strip(r)).Ok? && Covers(norm, norm(Strip(r)).value, t)
  }

  lemma PathReading(norm: Normaliser, raw: Option<seq<string>>, read: Option<seq<string>>, t: string)
    requires OptionalPaths(norm, raw) == Ok(read) && raw.Some?
    ensures read.Some?
    ensures Admits(norm, t, read.value) <==>
            exists r :: r in raw.value && norm(Strip(r)).Ok? && Covers(norm, norm(Strip(r)).value, t)
  {
    hide Strip, StripAll, AnyBlank, Within, AllNormalize, NormalizeAll;
    FormsRead(norm, raw.value, read.value);
    assert forall r :: r in raw.value && norm(Strip(r)).Ok? ==> norm(Strip(r)).value in read.value;
  }

  /** A read prefix list holds the normal forms of its entries. */
  lemma FormsRead(norm: Normaliser, raw: seq<string>, forms: seq<string>)
    requires NormalizeAll(norm, StripAll(raw)) == Ok(forms)
    ensures forall x :: x in forms <==> exists r :: r in raw && norm(Strip(r)) == Ok(x)
  {
    hide Strip;
    var items := StripAll(raw);
    assert forall i :: 0 <= i < |items| ==> items[i] == Strip(raw[i]) && items[i] in items && raw[i] in raw;
    assert forall i :: 0 <= i < |forms| ==> norm(items[i]) == Ok(forms[i]);
    forall r, x | r in raw && norm(Strip(r)) == Ok(x) ensures x in forms {
      var i :| 0 <= i < |raw| && raw[i] == r;
      assert forms[i] == x;
    }
  }

  lemma OverlayPaths(norm: Normaliser, request: Request, ns: seq<Narrowing>, t: string)
    requires ReadOf(norm, request.overlays, ns)
    ensures (forall n :: n in ns ==> Passes(norm, t, n)) <==> PathsPass(norm, request, t)
  {
    hide ReadOverlay, Admits, Covers, Strip;
    forall o, n | o in request.overlays && ReadOverlay(norm, o) == Ok(n)
      ensures n.paths.Some? <==> o.pathPrefixes.Some?
      ensures o.pathPrefixes.Some? ==>
                (Passes(norm, t, n) <==>
                 exists r :: r in o.pathPrefixes.value && norm(Strip(r)).Ok? && Covers(norm, norm(Strip(r)).value, t))
    {
      OverlayLists(norm, o, n);
      if o.pathPrefixes.Some? {
        PathReading(norm, o.pathPrefixes, n.paths, t);
      }
    }
    forall o | o in request.overlays ensures exists n :: n in ns && ReadOverlay(norm, o) == Ok(n) {
      assert ReadOverlay(norm, o).value in ns;
    }
  }

  lemma WideningPaths(norm: Normaliser, base: Scope, w: Widening, current: seq<string>, t: string)
    requires WideningStep(norm, base, w).Ok?
    ensures var added := WideningStep(norm, base, w).value.0.paths;
            Admits(norm, t, AddNames(current, added)) <==> Admits(norm, t, current) || RestoresPath(norm, w, base, t)
  {
    hide ReadWidening, Trusted, ValidApproval, Inside, DestinationAllowed, Strip, Lower, AddNames, Within;
    ApprovalCodes(w.approval, "");
    if Approved(w) {
      WideningAdds(norm, base, w);
    }
    var added := WideningStep(norm, base, w).value.0.paths;
    forall p ensures p in AddNames(current, added) <==> p in current || p in added {
      AddedNames(current, added, p);
    }
    assert Admits(norm, t, AddNames(current, added)) <==>
           Admits(norm, t, current) || exists p :: p in added && Covers(norm, p, t);
  }

  /** The effective scope admits the path: the base and all overlays do, or an approved widening restores a
      path of the base that covers it. */
  ghost predicate InScope(norm: Normaliser, request: Request, base: Scope, t: string) {
    (Admits(norm, t, base.paths) && PathsPass(norm, request, t)) || RestoresPath(norm, request.widening, base, t)
  }

  lemma PathsOfParts(norm: Normaliser, request: Request, s: Setting, ns: seq<Narrowing>, f: Folded, t: string)
    requires ReadOf(norm, request.overlays, ns) && FoldNarrowings(norm, Start(s), ns) == Ok(f)
    requires WideningStep(norm, s.base, request.widening).Ok?
    requires s.widened == WideningStep(norm, s.base, request.widening).value.0
    requires Settled(norm, s.base.paths) && SettledPaths(norm, ns)
    ensures Admits(norm, t, Widen(f.scope, s.widened).paths) <==> InScope(norm, request, s.base, t)
  {
    hide FoldNarrowings, ReadOf, Start, WideningStep, Settled, SettledPaths, Admits, PathsPass, RestoresPath, Widen,
      Passes;
    StartFields(s);
    FoldPaths(norm, Start(s), ns);
    OverlayPaths(norm, request, ns, t);
    WidenParts(f.scope, s.widened);
    WideningPaths(norm, s.base, request.widening, f.scope.paths, t);
  }

  /** On settled prefixes a path is in the effective scope exactly when it is in all the lists, or restored. */
  lemma PathsExact(norm: Normaliser, request: Request, config: Config, t: string)
    requires Evaluate(norm, request, config).Ok?
    requires OrdinaryBase(norm, request, config) && OrdinaryOverlays(norm, request.overlays)
    ensures Base(norm, request, config).Ok?
    ensures Admits(norm, t, Evaluate(norm, request, config).value.scope.paths) <==>
            InScope(norm, request, Base(norm, request, config).value, t)
  {
    hide *;
    var s, ns, f := EvaluationParts(norm, request, config);
    Concluded(norm, request, s, f);
    SettingParts(norm, request, config, s);
    SettledStart(norm, request, config, s, ns);
    PathsOfParts(norm, request, s, ns, f, t);
  }

  lemma SettledStart(norm: Normaliser, request: Request, config: Config, s: Setting, ns: seq<Narrowing>)
    requires OrdinaryBase(norm, request, config) && OrdinaryOverlays(norm, request.overlays)
    requires Settle(norm, request, config) == Ok(s) && ReadOf(norm, request.overlays, ns)
    ensures Settled(norm, s.base.paths) && SettledPaths(norm, ns)
  {
    hide Settle, ReadOverlay, Settled;
  }

  // ----- the ceiling

  ghost predicate NoBlank(raw: seq<string>) {
    forall r :: r in raw ==> Strip(r) != ""
  }

  ghost predicate Rootable(norm: Normaliser, root: string) {
    Strip(root) != "" && norm(Strip(root)).Ok?
  }

  ghost predicate RootsReadable(norm: Normaliser, profile: Profile, c: Context) {
    || profile.filesystemScope == "none"
    || (profile.filesystemScope == "project" && Rootable(norm, c.projectRoot))
    || (profile.filesystemScope == "current_account" && forall r :: r in c.currentAccountRoots ==> Rootable(norm, r))
    || (profile.filesystemScope == "sandbox" && Rootable(norm, c.sandboxRoot))
  }

  /** The sections of the profile name known scopes, and the context gives what they read. */
  ghost predicate BaseReadable(norm: Normaliser, profileId: string, profile: Profile, c: Context) {
    && RootsReadable(norm, profile, c)
    && (|| profile.networkScope == "none" || profile.networkScope == "unrestricted"
        || (profile.networkScope == "allowlist"
            && NoBlank(if profileId == "isolated_untrusted" then c.grantDestinations else c.projectDestinations)))
    && (|| profile.browserScope == "none" || profile.browserScope == "isolated"
        || (profile.browserScope == "user_selected" && NoBlank(c.userSelectedBrowserProfiles))
        || (profile.browserScope == "unrestricted" && NoBlank(c.availableBrowserProfiles)))
    && (profile.credentialMode == "none" || NoBlank(c.availableSecretLeaseIds))
  }

  ghost predicate RootOf(profile: Profile, c: Context, root: string) {
    || (profile.filesystemScope == "project" && root == c.projectRoot)
    || (profile.filesystemScope == "current_account" && root in c.currentAccountRoots)
    || (profile.filesystemScope == "sandbox" && root == c.sandboxRoot)
  }

  ghost predicate BaseHost(profileId: string, profile: Profile, c: Context, x: string) {
    || (profile.networkScope == "unrestricted" && x == "*")
    || (profile.networkScope == "allowlist"
        && Reads(if profileId == "isolated_untrusted" then c.grantDestinations else c.projectDestinations, x))
  }

  ghost predicate BaseBrowser(profile: Profile, c: Context, x: string) {
    || (profile.browserScope == "isolated" && x == "isolated")
    || (profile.browserScope == "user_selected" && Reads(c.userSelectedBrowserProfiles, x))
    || (profile.browserScope == "unrestricted"
        && if c.availableBrowserProfiles == [] then x == "*" else Reads(c.availableBrowserProfiles, x))
  }

  lemma BlankReads(raw: seq<string>)
    ensures StringList(raw).Ok? <==> NoBlank(raw)
    ensures StringList(raw).Ok? ==> StringList(raw).value == StripAll(raw)
  {
    hide Strip;
  }

  lemma SortedReads(raw: seq<string>, x: string)
    ensures SortedList(raw).Ok? <==> NoBlank(raw)
    ensures SortedList(raw).Ok? ==>
              var r := SortedList(raw).value; Ascending(r) && (x in r <==> Reads(raw, x)) && (r == [] <==> raw == [])
  {
    hide StripAll, AnyBlank, Reads, NoBlank;
    BlankReads(raw);
    StripAllReads(raw, x);
    StrippedLength(raw);
    if raw != [] {
      assert StripAll(raw)[0] in Elements(StripAll(raw));
    }
  }

  lemma StrippedLength(raw: seq<string>)
    ensures |StripAll(raw)| == |raw|
  {
  }

  lemma RootForms(norm: Normaliser, raw: seq<string>, x: string)
    requires NoBlank(raw)
    ensures NormalizeAll(norm, StripAll(raw)).Ok? <==> forall r :: r in raw ==> norm(Strip(r)).Ok?
    ensures NormalizeAll(norm, StripAll(raw)).Ok? ==>
              (x in NormalizeAll(norm, StripAll(raw)).value <==> exists r :: r in raw && norm(Strip(r)) == Ok(x))
  {
    hide Strip;
    assert forall i :: 0 <= i < |raw| ==> StripAll(raw)[i] == Strip(raw[i]) && raw[i] in raw;
    assert forall r :: r in raw ==> Strip(r) in StripAll(raw) by {
      forall r | r in raw ensures Strip(r) in StripAll(raw) {
        var i :| 0 <= i < |raw| && raw[i] == r;
        assert StripAll(raw)[i] == Strip(r);
      }
    }
    if NormalizeAll(norm, StripAll(raw)).Ok? {
      FormsRead(norm, raw, NormalizeAll(norm, StripAll(raw)).value);
    }
  }

  lemma RootText(norm: Normaliser, raw: string, x: string)
    ensures PolicyEngine.NormalizeText(norm, raw).Ok? <==> Rootable(norm, raw)
    ensures PolicyEngine.NormalizeText(norm, raw).Ok? ==>
              var forms := PolicyEngine.NormalizeText(norm, raw).value; x in forms <==> norm(Strip(raw)) == Ok(x)
  {
    hide Strip;
    assert [Strip(raw)][0] in [Strip(raw)];
    if Rootable(norm, raw) {
      assert PolicyEngine.NormalizeText(norm, raw).value == [NormalOf(norm, Strip(raw))];
    }
  }

  lemma BasePathsExact(norm: Normaliser, profile: Profile, c: Context, x: string)
    ensures BasePaths(norm, profile, c).Ok? <==> RootsReadable(norm, profile, c)
    ensures BasePaths(norm, profile, c).Ok? ==>
              (x in BasePaths(norm, profile, c).value <==>
               exists root :: RootOf(profile, c, root) && norm(Strip(root)) == Ok(x))
  {
    hide Strip, StringList, PolicyEngine.NormalizeText, NormalizeAll;
    if profile.filesystemScope == "project" {
      RootText(norm, c.projectRoot, x);
      assert RootOf(profile, c, c.projectRoot);
    } else if profile.filesystemScope == "current_account" {
      BlankReads(c.currentAccountRoots);
      if NoBlank(c.currentAccountRoots) {
        RootForms(norm, c.currentAccountRoots, x);
      }
      assert forall r :: r in c.currentAccountRoots ==> RootOf(profile, c, r);
    } else if profile.filesystemScope == "sandbox" {
      RootText(norm, c.sandboxRoot, x);
      assert RootOf(profile, c, c.sandboxRoot);
    }
  }

  lemma OneAscends(x: string)
    ensures Ascending([x]) && Ascending([])
  {
  }

  lemma BaseHostsExact(profileId: string, profile: Profile, c: Context, x: string)
    ensures BaseDestinations(profileId, profile, c).Ok? <==>
            (|| profile.networkScope == "none" || profile.networkScope == "unrestricted"
             || (profile.networkScope == "allowlist"
                 && NoBlank(if profileId == "isolated_untrusted" then c.grantDestinations else c.projectDestinations)))
    ensures BaseDestinations(profileId, profile, c).Ok? ==>
              var base := BaseDestinations(profileId, profile, c).value;
              Ascending(base) && (x in base <==> BaseHost(profileId, profile, c, x))
  {
    hide SortedList, NoBlank, Reads;
    OneAscends(ANY);
    SortedReads(if profileId == "isolated_untrusted" then c.grantDestinations else c.projectDestinations, x);
  }

  lemma BaseBrowsersExact(profile: Profile, c: Context, x: string)
    ensures BaseBrowsers(profile, c).Ok? <==>
            (|| profile.browserScope == "none" || profile.browserScope == "isolated"
             || (profile.browserScope == "user_selected" && NoBlank(c.userSelectedBrowserProfiles))
             || (profile.browserScope == "unrestricted" && NoBlank(c.availableBrowserProfiles)))
    ensures BaseBrowsers(profile, c).Ok? ==>
              var base := BaseBrowsers(profile, c).value; Ascending(base) && (x in base <==> BaseBrowser(profile, c, x))
  {
    hide SortedList, NoBlank, Reads;
    OneAscends(ANY);
    OneAscends("isolated");
    SortedReads(c.userSelectedBrowserProfiles, x);
    SortedReads(c.availableBrowserProfiles, x);
  }

  lemma BaseLeasesExact(profile: Profile, c: Context, x: string)
    ensures BaseLeases(profile, c).Ok? <==> profile.credentialMode == "none" || NoBlank(c.availableSecretLeaseIds)
    ensures BaseLeases(profile, c).Ok? ==>
              var base := BaseLeases(profile, c).value;
              && Ascending(base)
              && (x in base <==> profile.credentialMode != "none" && Reads(c.availableSecretLeaseIds, x))
  {
    hide SortedList, NoBlank, Reads;
    OneAscends("");
    SortedReads(c.availableSecretLeaseIds, x);
  }

  /** The ceiling of a profile: when it can be read, and what its sorted lists hold. */
  lemma BaseExact(norm: Normaliser, profileId: string, profile: Profile, c: Context, x: string)
    ensures BaseScope(norm, profileId, profile, c).Ok? <==> BaseReadable(norm, profileId, profile, c)
    ensures BaseScope(norm, profileId, profile, c).Ok? ==>
              var base := BaseScope(norm, profileId, profile, c).value;
              && Ascending(base.destinations) && Ascending(base.browsers) && Ascending(base.leases)
              && (x in base.paths <==> exists root :: RootOf(profile, c, root) && norm(Strip(root)) == Ok(x))
              && (x in base.destinations <==> BaseHost(profileId, profile, c, x))
              && (x in base.browsers <==> BaseBrowser(profile, c, x))
              && (x in base.leases <==> profile.credentialMode != "none" && Reads(c.availableSecretLeaseIds, x))
  {
    hide BasePaths, BaseDestinations, BaseBrowsers, BaseLeases, RootOf, RootsReadable, BaseHost, BaseBrowser, Rootable,
      NoBlank, Reads, Ascending, Strip;
    BasePathsExact(norm, profile, c, x);
    BaseHostsExact(profileId, profile, c, x);
    BaseBrowsersExact(profile, c, x);
    BaseLeasesExact(profile, c, x);
  }

  // ----- which requests are evaluated

  ghost predicate KnownLevel(level: string) {
    level == "always" || level == "high_risk_only" || level == "never"
  }

  /** The overlay has a known layer, an identity and readable lists. */
  ghost predicate Readable(norm: Normaliser, o: Overlay) {
    && (o.layer == "organization" || o.layer == "project" || o.layer == "user") && Strip(o.overlayId) != ""
    && NoBlank(o.denyCapabilities) && NoBlank(o.denyTools)
    && (o.pathPrefixes.Some? ==> forall r :: r in o.pathPrefixes.value ==> Rootable(norm, r))
    && (o.networkDestinations.Some? ==> NoBlank(o.networkDestinations.value))
    && (o.browserProfiles.Some? ==> NoBlank(o.browserProfiles.value))
    && (o.secretLeaseIds.Some? ==> NoBlank(o.secretLeaseIds.value))
  }

  lemma PathsReadable(norm: Normaliser, raw: Option<seq<string>>)
    ensures OptionalPaths(norm, raw).Ok? <==> (raw.Some? ==> forall r :: r in raw.value ==> Rootable(norm, r))
  {
    hide Strip, StringList, NormalizeAll;
    if raw.Some? {
      BlankReads(raw.value);
      if NoBlank(raw.value) {
        RootForms(norm, raw.value, "");
      }
    }
  }

  lemma ListReadable(raw: Option<seq<string>>)
    ensures OptionalList(raw).Ok? <==> (raw.Some? ==> NoBlank(raw.value))
    ensures OptionalHosts(raw).Ok? <==> (raw.Some? ==> NoBlank(raw.value))
  {
    hide StringList, NoBlank;
    if raw.Some? {
      BlankReads(raw.value);
    }
  }

  lemma OverlayReadable(norm: Normaliser, o: Overlay)
    ensures ValidKey(o) && ReadOverlay(norm, o).Ok? <==> Readable(norm, o)
  {
    hide StringList, NoBlank, OptionalPaths, OptionalHosts, OptionalList, Strip, Rootable;
    BlankReads(o.denyCapabilities);
    BlankReads(o.denyTools);
    PathsReadable(norm, o.pathPrefixes);
    ListReadable(o.networkDestinations);
    ListReadable(o.browserProfiles);
    ListReadable(o.secretLeaseIds);
  }

  /** The lists of an approved widening can be read and its paths can be compared with the base. */
  ghost predicate WideningReadable(norm: Normaliser, w: Widening, base: Scope) {
    Approved(w) ==>
      && NoBlank(w.restorePaths) && NoBlank(w.restoreDestinations)
      && NoBlank(w.restoreBrowsers) && NoBlank(w.restoreLeases)
      && forall p :: p in w.restorePaths ==>
           norm(Strip(p)).Ok? && (base.paths == [] || norm(norm(Strip(p)).value).Ok?)
  }

  lemma {:induction false} RestoreReadable(norm: Normaliser, base: seq<string>, items: seq<string>)
    requires AllNormalize(norm, base)
    ensures RestorePaths(norm, base, items).Ok? <==>
            forall p :: p in items ==> norm(p).Ok? && (base == [] || norm(norm(p).value).Ok?)
  {
    hide AllNormalize, AnyWithin;
    if items != [] {
      RestoreReadable(norm, base, items[1..]);
      if norm(items[0]).Ok? {
        AnyWithinMeaning(norm, norm(items[0]).value, base);
      }
      assert forall p :: p in items <==> p == items[0] || p in items[1..];
    }
  }

  lemma WideningRead(norm: Normaliser, base: Scope, w: Widening)
    requires AllNormalize(norm, base.paths)
    ensures WideningStep(norm, base, w).Ok? <==> WideningReadable(norm, w, base)
  {
    hide AllNormalize, RestorePaths, Trusted, ValidApproval, NoBlank, Strip, StripAll, StringList, DestinationAllowed,
      Lower;
    ApprovalCodes(w.approval, "");
    if Approved(w) {
      BlankReads(w.restorePaths);
      BlankReads(w.restoreDestinations);
      BlankReads(w.restoreBrowsers);
      BlankReads(w.restoreLeases);
      RestoreReadable(norm, base.paths, StripAll(w.restorePaths));
      forall x ensures x in StripAll(w.restorePaths) <==> Reads(w.restorePaths, x) {
        StripAllReads(w.restorePaths, x);
      }
      assert forall p :: p in w.restorePaths ==> Reads(w.restorePaths, Strip(p));
    }
  }

  ghost predicate BudgetsGiven(request: Request, config: Config) {
    ProfileId(request) in config.profileBudgets &&
    forall f :: f in BUDGET_FIELDS ==>
      f in config.profileBudgets[ProfileId(request)] && config.profileBudgets[ProfileId(request)][f] >= 0
  }

  ghost predicate BindingGiven(b: Binding) {
    && Strip(b.accessProfileId) != "" && Strip(b.capabilityId) != "" && Strip(b.toolId) != ""
    && Strip(b.actorId) != "" && Strip(b.runId) != "" && Strip(b.taskId) != ""
  }

  /** What the overlays do not touch can be read. */
  ghost predicate Settleable(norm: Normaliser, request: Request, config: Config) {
    && BindingGiven(request.binding) && ProfileId(request) in config.profiles && BudgetsGiven(request, config)
    && Base(norm, request, config).Ok?
    && BaseReadable(norm, ProfileId(request), config.profiles[ProfileId(request)], request.context)
    && WideningReadable(norm, request.widening, Base(norm, request, config).value)
  }

  /** A path target that does not normalise is compared with no path. */
  ghost predicate TargetReadable(norm: Normaliser, request: Request, base: Scope) {
    request.effect.domain == "filesystem" && request.effect.target.Some? ==>
      norm(request.effect.target.value).Ok? || !exists t :: InScope(norm, request, base, t)
  }

  ghost predicate SettledRequest(norm: Normaliser, request: Request, config: Config) {
    && (Base(norm, request, config).Ok? ==> Settled(norm, Base(norm, request, config).value.paths))
    && OrdinaryOverlays(norm, request.overlays)
  }

  lemma SettleReads(norm: Normaliser, request: Request, config: Config)
    requires SettledRequest(norm, request, config)
    ensures Settle(norm, request, config).Ok? <==> Settleable(norm, request, config)
  {
    hide BaseScope, WideningStep, WideningReadable, BindingReasons, ValidApproval, BadRequestedBudget, BUDGET_FIELDS,
      Strip, BaseReadable, OrdinaryOverlays, ClampBudgets;
    var id := ProfileId(request);
    if id in config.profiles {
      BaseExact(norm, id, config.profiles[id], request.context, "");
      var base := BaseScope(norm, id, config.profiles[id], request.context);
      if base.Ok? {
        WideningRead(norm, base.value, request.widening);
      }
    }
  }

  lemma LevelKnown(level: string)
    ensures ApprovalRank(level) >= 0 <==> KnownLevel(level)
  {
  }

  ghost predicate LevelsKnown(request: Request, profile: Profile) {
    forall o :: o in request.overlays && o.approvalPolicy.Some? ==>
      KnownLevel(o.approvalPolicy.value) && KnownLevel(profile.approvalPolicy)
  }

  lemma LevelsRead(norm: Normaliser, request: Request, s: Setting, ns: seq<Narrowing>)
    requires ReadOf(norm, request.overlays, ns)
    ensures KnownPolicies(Start(s), ns) <==> LevelsKnown(request, s.profile)
  {
    hide ReadOverlay, ApprovalRank, KnownLevel;
    LevelKnown(s.profile.approvalPolicy);
    forall o, n | o in request.overlays && ReadOverlay(norm, o) == Ok(n) ensures n.approvalPolicy == o.approvalPolicy {
      OverlayFields(norm, o, n);
    }
    forall o | o in request.overlays
      ensures exists n :: n in ns && ReadOverlay(norm, o) == Ok(n)
      ensures o.approvalPolicy.Some? ==>
                (ApprovalRank(o.approvalPolicy.value) >= 0 <==> KnownLevel(o.approvalPolicy.value))
    {
      assert ReadOverlay(norm, o).value in ns;
      if o.approvalPolicy.Some? {
        LevelKnown(o.approvalPolicy.value);
      }
    }
  }

  lemma FoldReadable(norm: Normaliser, request: Request, s: Setting, ordered: seq<Overlay>)
    requires Settled(norm, s.base.paths) && OrdinaryOverlays(norm, request.overlays)
    requires forall o :: o in ordered <==> o in request.overlays
    ensures FoldOverlays(norm, Start(s), ordered).Ok? <==>
            (forall o :: o in request.overlays ==> ReadOverlay(norm, o).Ok?) && LevelsKnown(request, s.profile)
    ensures FoldOverlays(norm, Start(s), ordered).Ok? ==>
              exists ns :: ReadOf(norm, request.overlays, ns) && SettledPaths(norm, ns)
                  && FoldNarrowings(norm, Start(s), ns) == FoldOverlays(norm, Start(s), ordered)
  {
    hide FoldOverlays, ReadAll, FoldNarrowings, ReadOverlay, LevelsKnown, Start, Settled, SettledPaths, KnownPolicies;
    StartFields(s);
    FoldReads(norm, Start(s), ordered);
    ReadAllMembers(norm, ordered);
    if ReadAll(norm, ordered).Ok? {
      var ns := ReadAll(norm, ordered).value;
      ReadSettled(norm, ordered);
      FoldSucceeds(norm, Start(s), ns);
      LevelsRead(norm, request, s, ns);
      assert ReadOf(norm, request.overlays, ns);
    }
  }

  lemma TargetReads(norm: Normaliser, request: Request, s: Setting, scope: Scope)
    requires forall t :: Admits(norm, t, scope.paths) <==> InScope(norm, request, s.base, t)
    requires AllNormalize(norm, scope.paths)
    ensures EffectReasons(norm, s.profileId, s.profile, request.context, request.effect, scope).Ok? <==>
            TargetReadable(norm, request, s.base)
  {
    hide InScope, Admits, AnyWithin, ProcessReasons, NetworkReasons, BrowserReasons, SecretReasons;
    SomeAdmitted(norm, scope.paths);
    if request.effect.target.Some? {
      AnyWithinMeaning(norm, request.effect.target.value, scope.paths);
    }
  }

  lemma SomeAdmitted(norm: Normaliser, prefixes: seq<string>)
    requires AllNormalize(norm, prefixes)
    ensures (exists t :: Admits(norm, t, prefixes)) <==> prefixes != []
  {
    if prefixes != [] {
      assert prefixes[0] in prefixes;
      assert Within(NormalOf(norm, prefixes[0]), NormalOf(norm, prefixes[0]));
      assert Admits(norm, NormalOf(norm, prefixes[0]), prefixes);
    }
  }

  lemma ConcludeReads(norm: Normaliser, request: Request, s: Setting, f: Folded)
    ensures Conclude(norm, request, s, f).Ok? <==>
            EffectReasons(norm, s.profileId, s.profile, request.context, request.effect, Widen(f.scope, s.widened)).Ok?
  {
    hide EffectReasons, OverlayReasons, NeedsApproval, StatusOf, CodesOf, Widen, GrantBinding;
  }

  /** From the folded overlays on, only the target can be refused. */
  lemma ConclusionAccepted(norm: Normaliser, request: Request, s: Setting, ns: seq<Narrowing>, f: Folded)
    requires ReadOf(norm, request.overlays, ns) && FoldNarrowings(norm, Start(s), ns) == Ok(f)
    requires WideningStep(norm, s.base, request.widening).Ok?
    requires s.widened == WideningStep(norm, s.base, request.widening).value.0
    requires Settled(norm, s.base.paths) && SettledPaths(norm, ns)
    ensures Conclude(norm, request, s, f).Ok? <==> TargetReadable(norm, request, s.base)
  {
    hide *;
    var scope := Widen(f.scope, s.widened);
    forall t ensures Admits(norm, t, scope.paths) <==> InScope(norm, request, s.base, t) {
      PathsOfParts(norm, request, s, ns, f, t);
    }
    StartFields(s);
    FoldPaths(norm, Start(s), ns);
    SettledNormalize(norm, s.base.paths);
    WideningStaysUnder(norm, s.base, request.widening);
    WidenedNormalize(norm, f.scope, s.widened, s.base);
    TargetReads(norm, request, s, scope);
    ConcludeReads(norm, request, s, f);
  }

  /** Which requests on settled prefixes are evaluated: those whose binding, profile sections, budgets,
      widening and overlays can be read and whose target can be compared. */
  lemma EvaluatedIff(norm: Normaliser, request: Request, config: Config)
    requires SettledRequest(norm, request, config)
    ensures Evaluate(norm, request, config).Ok? <==>
            && Settleable(norm, request, config)
            && (forall o :: o in request.overlays ==> Readable(norm, o))
            && LevelsKnown(request, config.profiles[ProfileId(request)])
            && TargetReadable(norm, request, Base(norm, request, config).value)
  {
    hide *;
    SettleReads(norm, request, config);
    EvaluateStages(norm, request, config);
    forall o ensures ValidKey(o) && ReadOverlay(norm, o).Ok? <==> Readable(norm, o) {
      OverlayReadable(norm, o);
    }
    if Settle(norm, request, config).Ok? {
      var s := Settle(norm, request, config).value;
      SettingParts(norm, request, config, s);
      SettledBase(norm, request, config);
      var ordered := Sorting.SortBy(KeyLess, request.overlays);
      Sorting.SortBySpec(KeyLess, request.overlays);
      FoldReadable(norm, request, s, ordered);
      if FoldOverlays(norm, Start(s), ordered).Ok? {
        var f := FoldOverlays(norm, Start(s), ordered).value;
        var ns :| ReadOf(norm, request.overlays, ns) && SettledPaths(norm, ns)
               && FoldNarrowings(norm, Start(s), ns) == Ok(f);
        ConclusionAccepted(norm, request, s, ns, f);
      }
    }
  }

  lemma SettledBase(norm: Normaliser, request: Request, config: Config)
    requires SettledRequest(norm, request, config)
    ensures OrdinaryOverlays(norm, request.overlays)
    ensures Base(norm, request, config).Ok? ==> Settled(norm, Base(norm, request, config).value.paths)
  {
  }

  lemma EvaluateStages(norm: Normaliser, request: Request, config: Config)
    ensures var ordered := Sorting.SortBy(KeyLess, request.overlays);
            Evaluate(norm, request, config).Ok? <==>
            && (forall o :: o in request.overlays ==> ValidKey(o))
            && Settle(norm, request, config).Ok?
            && var s := Settle(norm, request, config).value;
               && FoldOverlays(norm, Start(s), ordered).Ok?
               && Conclude(norm, request, s, FoldOverlays(norm, Start(s), ordered).value).Ok?
  {
    hide Settle, FoldOverlays, Conclude, ValidKey, KeyLess, Start, Sorting.SortBy;
  }
}
