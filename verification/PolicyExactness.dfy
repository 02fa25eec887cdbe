/** The conditions of `PolicyGuarantees` are exact: drop one path, lease or destination from them and some
    evaluation that reads nothing else relaxes or climbs above its ceiling. */
module PolicyExactness {
  import opened Wrappers
  import opened Text
  import opened Paths
  import opened PolicyScope
  import opened PolicyEngine
  import opened PolicyTheorems
  import opened PolicyProbes
  import opened PolicyGuarantees
  import PolicyCeiling
  import PolicyOrder
  import Sorting

  lemma DrawsMore(request: Request, config: Config, overlays: seq<Overlay>, path: string -> bool, lease: string -> bool,
                  path': string -> bool, lease': string -> bool)
    requires Draws(request, config, overlays, path, lease)
    requires (forall p :: path(p) ==> path'(p)) && (forall l :: lease(l) ==> lease'(l))
    ensures Draws(request, config, overlays, path', lease')
  {
    hide Strip, RootsRead, LeasesRead;
  }

  lemma DrawsMoreHosts(request: Request, config: Config, host: string -> bool, host': string -> bool)
    requires DrawsHosts(request, config, host) && forall h :: host(h) ==> host'(h)
    ensures DrawsHosts(request, config, host')
  {
    hide Strip, DestinationsRead;
  }

  function JustOne(p: string): string -> bool {
    q => q == p
  }

  function Nothing(): string -> bool {
    q => false
  }

  // ----- untidy paths

  /** An untidy path is accepted, and its second form is refused, or its third is refused or another. */
  lemma UntidyForms(p: string)
    requires !Tidy(p)
    ensures Strip(p) != "" && Normalize(Strip(p)) == Normalize(p) && Normalize(p).Ok?
    ensures var y := Normalize(p).value;
            Normalize(y).Ok? ==> Normalize(Normalize(y).value) != Ok(Normalize(y).value)
  {
    hide Paths.NormalizeText, Trimmed, DriveSettled, Strip;
    StrippedAgain(p);
    assert Normalize(Strip(p)) == Normalize(p);
    EmptyFixed();
    var y := Normalize(p).value;
    if Normalize(y).Ok? {
      NormalizeIdempotentIff(y);
    }
    EmptyIsTidy();
  }

  lemma EmptyIsTidy()
    ensures Normalize("") == Ok("") && Tidy("")
  {
    EmptyFixed();
    hide Normalize;
  }

  lemma RootedDraws(p: string, request: Request, overlays: seq<Overlay>)
    requires request.binding.accessProfileId == "p" && request.context.projectRoot == p
    requires forall o :: o in overlays ==> o == PathOverlay("user", [p]) || o == PathOverlay("organization", [])
    ensures Draws(request, ProbeConfig(request.effect.domain, ROOTED), overlays, JustOne(p), Nothing())
    ensures DrawsHosts(request, ProbeConfig(request.effect.domain, ROOTED), Nothing())
  {
    OneLetter("p");
    hide Strip;
    assert RootsRead(ROOTED, request.context) == [p];
    assert LeasesRead(ROOTED, request.context) == [] && DestinationsRead("p", ROOTED, request.context) == [];
  }

  lemma RootedSetting(p: string, prefix: string, effect: Effect, overlays: seq<Overlay>)
    requires Strip(p) != "" && Normalize(Strip(p)) == Ok(prefix)
    ensures var s := Settle(Normalize, Probe(effect, p, [], [], overlays, NO_WIDENING),
            ProbeConfig(effect.domain, ROOTED));
            s.Ok? && ProbeSettled(s.value, ROOTED, Scope([prefix], [], [], []), NOTHING)
            && Start(s.value) == Plainly(Scope([prefix], [], [], []), s.value.budgets)
  {
    hide Strip, Normalize, WideningStep, BaseScope, Settle;
    var base := Scope([prefix], [], [], []);
    RootBase(p, prefix, Probe(effect, p, [], [], overlays, NO_WIDENING).context);
    NothingWidens(base);
    ProbeSetting(effect, p, [], [], overlays, NO_WIDENING, ROOTED, base, NOTHING);
  }

  /** From the root's stored prefix, an overlay that names the root. */
  lemma RootFold(p: string, prefix: string, budgets: Budgets, rest: seq<Overlay>)
    requires Strip(p) != "" && Normalize(Strip(p)) == Ok(prefix)
    ensures var st := Plainly(Scope([prefix], [], [], []), budgets);
            FoldOverlays(Normalize, st, [PathOverlay("user", [p])] + rest) ==
            (match Normalize(prefix)
             case Refused => Refused
             case Ok(next) => FoldOverlays(Normalize, Plainly(Scope([next], [], [], []), budgets), rest))
  {
    hide Strip, Normalize, FoldOverlays, PathMeet, Apply, ReadOverlay;
    var o := PathOverlay("user", [p]);
    ReadPathOverlay("user", p, prefix);
    ApplyPaths(Scope([prefix], [], [], []), budgets, [prefix]);
    FoldStep(Plainly(Scope([prefix], [], [], []), budgets), o, PathNarrowing([prefix]), rest);
    SelfMeet(prefix);
  }

  lemma SelfMeet(p: string)
    ensures PathMeet(Normalize, [p], [p]) ==
            match Normalize(p)
            case Refused => Refused
            case Ok(next) => Ok([next])
  {
    hide Normalize;
    assert p in [p];
    if Normalize(p).Ok? {
      SelfMeetExactIff(Normalize, p);
    }
  }

  /** The next overlay that names the root meets the list the first one left. */
  lemma SecondMeet(prefix: string, next: string)
    requires Normalize(prefix) == Ok(next) && Normalize(next).Refused?
    ensures PathMeet(Normalize, [next], [prefix]).Refused?
  {
    hide Normalize;
    assert next in [next];
  }

  lemma ReadTests(prefix: string, next: string, after: string)
    requires Normalize(prefix) == Ok(next) && Normalize(next) == Ok(after) && after != next
    ensures AnyWithin(Normalize, next, [prefix]) == Ok(false) && AnyWithin(Normalize, next, [next]) == Ok(true)
    ensures Admits(Normalize, after, [next]) && !Admits(Normalize, after, [prefix])
  {
    NextFormIsOutside(next);
    hide Normalize;
    assert [prefix][1..] == [] && [next][1..] == [];
    assert AnyWithin(Normalize, next, []) == Ok(false);
    assert next in [next];
  }

  /** An evaluation whose overlays are in order already, from its setting and its fold. */
  lemma InOrder(request: Request, config: Config, s: Setting)
    requires Settle(Normalize, request, config) == Ok(s) && OrderOverlays(request.overlays) == Ok(request.overlays)
    ensures Evaluate(Normalize, request, config) ==
            match FoldOverlays(Normalize, Start(s), request.overlays)
            case Refused => Refused
            case Ok(f) => Conclude(Normalize, request, s, f)
  {
    hide Settle, OrderOverlays, FoldOverlays, Conclude;
  }

  /** Where the third form is another, an overlay that names the root turns a denied read into a grant,
      in a scope that admits what the root does not. */
  lemma ReadRelaxes(p: string, prefix: string, next: string, after: string)
    requires Strip(p) != "" && Normalize(Strip(p)) == Ok(prefix)
    requires Normalize(prefix) == Ok(next) && Normalize(next) == Ok(after) && after != next
    ensures var config := ProbeConfig("filesystem", ROOTED);
            var few := Evaluate(Normalize, ReadProbe(p, next, []), config);
            var more := Evaluate(Normalize, ReadProbe(p, next, [PathOverlay("user", [p])]), config);
            && few.Ok? && few.value.status == Deny
            && more.Ok? && more.value.status == Allow && more.value.scope.paths == [next]
  {
    var o := PathOverlay("user", [p]);
    ProbeOrder(o, PathOverlay("organization", []));
    ReadTests(prefix, next, after);
    hide Strip, Normalize, Settle, FoldOverlays, OrderOverlays, Conclude, AnyWithin, Admits, Evaluate;
    ReadOnce(p, prefix, next, [], prefix, false);
    assert [o] == [o] + [];
    ReadOnce(p, prefix, next, [o], next, true);
  }

  lemma ReadOnce(p: string, prefix: string, next: string, overlays: seq<Overlay>, final: string, inside: bool)
    requires Strip(p) != "" && Normalize(Strip(p)) == Ok(prefix) && Normalize(prefix) == Ok(next)
    requires (overlays == [] && final == prefix) || (overlays == [PathOverlay("user", [p])] + [] && final == next)
    requires OrderOverlays(overlays) == Ok(overlays)
    requires AnyWithin(Normalize, next, [final]) == Ok(inside)
    ensures var d := Evaluate(Normalize, ReadProbe(p, next, overlays), ProbeConfig("filesystem", ROOTED));
            d.Ok? && d.value.status == (if inside then Allow else Deny) && d.value.scope.paths == [final]
  {
    hide Strip, Normalize, Settle, FoldOverlays, OrderOverlays, Conclude, AnyWithin, Evaluate;
    var request, config := ReadProbe(p, next, overlays), ProbeConfig("filesystem", ROOTED);
    RootedSetting(p, prefix, request.effect, overlays);
    var s := Settle(Normalize, request, config).value;
    InOrder(request, config, s);
    RootFold(p, prefix, s.budgets, []);
    FoldNothing(Plainly(Scope([final], [], [], []), s.budgets));
    ReadConclusion(s, prefix, request, next, [final], s.budgets, inside);
  }

  lemma FoldNothing(st: Folded)
    ensures FoldOverlays(Normalize, st, []) == Ok(st)
  {
  }

  /** Where the second or the third form is refused, overlays that name the root are refused, and an
      empty prefix list before them lets a command through. */
  lemma RunRelaxes(p: string, prefix: string)
    requires Strip(p) != "" && Normalize(Strip(p)) == Ok(prefix)
    requires Normalize(prefix).Refused? || Normalize(Normalize(prefix).value).Refused?
    ensures var o, e, config := PathOverlay("user", [p]), PathOverlay("organization", []),
            ProbeConfig("process", ROOTED);
            var more := Evaluate(Normalize, RunProbe(p, [e, o, o]), config);
            && Evaluate(Normalize, RunProbe(p, [o, o]), config).Refused?
            && more.Ok? && more.value.status == Allow
            && EvaluateInOrder(Normalize, RunProbe(p, [e, o, o]), config, [o, o, e]).Refused?
  {
    var o, e := PathOverlay("user", [p]), PathOverlay("organization", []);
    ProbeOrder(o, e);
    hide Strip, Normalize, OrderOverlays, Evaluate, EvaluateInOrder, PathOverlay, ProbeConfig, RunProbe;
    assert [o] + ([o] + []) == [o, o] && [o] + ([o] + [e]) == [o, o, e];
    RunTwiceRefused(p, prefix, [o, o], [o, o], []);
    RunTwiceRefused(p, prefix, [e, o, o], [o, o, e], [e]);
    InTheirOrder(RunProbe(p, [o, o]), ProbeConfig("process", ROOTED));
    RunEmptyFirst(p, prefix);
  }

  lemma InTheirOrder(request: Request, config: Config)
    requires OrderOverlays(request.overlays) == Ok(request.overlays)
    ensures Evaluate(Normalize, request, config) == EvaluateInOrder(Normalize, request, config, request.overlays)
  {
    hide EvaluateInOrder, OrderOverlays;
  }

  lemma RunTwiceRefused(p: string, prefix: string, overlays: seq<Overlay>, ordered: seq<Overlay>, rest: seq<Overlay>)
    requires Strip(p) != "" && Normalize(Strip(p)) == Ok(prefix)
    requires Normalize(prefix).Refused? || Normalize(Normalize(prefix).value).Refused?
    requires ordered == [PathOverlay("user", [p])] + ([PathOverlay("user", [p])] + rest)
    ensures EvaluateInOrder(Normalize, RunProbe(p, overlays), ProbeConfig("process", ROOTED), ordered).Refused?
    ensures RunProbe(p, overlays).overlays == overlays
  {
    hide Strip, Normalize, Settle, EvaluateInOrder, FoldOverlays, PathOverlay, ProbeConfig;
    var request, config := RunProbe(p, overlays), ProbeConfig("process", ROOTED);
    RootedSetting(p, prefix, RUN, overlays);
    var s := Settle(Normalize, request, config).value;
    TwiceRefused(p, prefix, s.budgets, rest);
    GivenOrder(request, config, s, ordered);
  }

  lemma RunEmptyFirst(p: string, prefix: string)
    requires Strip(p) != "" && Normalize(Strip(p)) == Ok(prefix)
    ensures var o, e, config := PathOverlay("user", [p]), PathOverlay("organization", []),
            ProbeConfig("process", ROOTED);
            var d := Evaluate(Normalize, RunProbe(p, [e, o, o]), config);
            d.Ok? && d.value.status == Allow
  {
    var o, e := PathOverlay("user", [p]), PathOverlay("organization", []);
    ProbeOrder(o, e);
    hide Strip, Normalize, Settle, FoldOverlays, OrderOverlays, Conclude, Evaluate, PathOverlay, Widen, ProbeConfig;
    var request, config := RunProbe(p, [e, o, o]), ProbeConfig("process", ROOTED);
    RootedSetting(p, prefix, RUN, [e, o, o]);
    var s := Settle(Normalize, request, config).value;
    InOrder(request, config, s);
    EmptyFirst(p, prefix, s.budgets);
    RunConclusion(s, ROOTED, s.base, NOTHING, request, Scope([], [], [], []), s.budgets);
  }

  lemma GivenOrder(request: Request, config: Config, s: Setting, ordered: seq<Overlay>)
    requires Settle(Normalize, request, config) == Ok(s) && FoldOverlays(Normalize, Start(s), ordered).Refused?
    ensures EvaluateInOrder(Normalize, request, config, ordered).Refused?
  {
    hide Settle, FoldOverlays;
  }

  lemma TwiceRefused(p: string, prefix: string, budgets: Budgets, rest: seq<Overlay>)
    requires Strip(p) != "" && Normalize(Strip(p)) == Ok(prefix)
    requires Normalize(prefix).Refused? || Normalize(Normalize(prefix).value).Refused?
    ensures var o := PathOverlay("user", [p]);
            FoldOverlays(Normalize, Plainly(Scope([prefix], [], [], []), budgets), [o] + ([o] + rest)).Refused?
  {
    hide Strip, Normalize, FoldOverlays, PathMeet, Apply, ReadOverlay;
    var o := PathOverlay("user", [p]);
    RootFold(p, prefix, budgets, [o] + rest);
    if Normalize(prefix).Ok? {
      var next := Normalize(prefix).value;
      SecondMeet(prefix, next);
      ReadPathOverlay("user", p, prefix);
      ApplyPaths(Scope([next], [], [], []), budgets, [prefix]);
      FoldStep(Plainly(Scope([next], [], [], []), budgets), o, PathNarrowing([prefix]), rest);
    }
  }

  lemma EmptyFirst(p: string, prefix: string, budgets: Budgets)
    requires Strip(p) != "" && Normalize(Strip(p)) == Ok(prefix)
    ensures var o, e := PathOverlay("user", [p]), PathOverlay("organization", []);
            FoldOverlays(Normalize, Plainly(Scope([prefix], [], [], []), budgets), [e, o, o])
            == Ok(Plainly(Scope([], [], [], []), budgets))
  {
    hide Strip, Normalize, FoldOverlays, Apply, ReadOverlay;
    var o, e := PathOverlay("user", [p]), PathOverlay("organization", []);
    ReadEmptyOverlay("organization");
    ReadPathOverlay("user", p, prefix);
    var none := Plainly(Scope([], [], [], []), budgets);
    ApplyPaths(Scope([prefix], [], [], []), budgets, []);
    ApplyPaths(Scope([], [], [], []), budgets, [prefix]);
    FoldStep(Plainly(Scope([prefix], [], [], []), budgets), e, PathNarrowing([]), [o, o]);
    FoldStep(none, o, PathNarrowing([prefix]), [o]);
    FoldStep(none, o, PathNarrowing([prefix]), []);
    assert [e] + [o, o] == [e, o, o] && [o] + [o] == [o, o] && [o] + [] == [o];
  }

  lemma Relaxed(stricter: Result<Decision>, looser: Result<Decision>)
    requires stricter.Ok? && stricter.value.status == Allow && (looser.Ok? ==> looser.value.status == Deny)
    ensures !AtLeastAsStrict(Normalize, stricter, looser)
  {
    hide ScopeNarrower, BudgetsNarrower;
  }

  lemma ProbeOverlays(effect: Effect, root: string, leases: seq<string>, few: seq<Overlay>, more: seq<Overlay>)
    ensures var r := Probe(effect, root, [], leases, few, NO_WIDENING);
            r.overlays == few && r.(overlays := more) == Probe(effect, root, [], leases, more, NO_WIDENING)
            && r.binding.accessProfileId == "p" && r.context.projectRoot == root && r.effect == effect
  {
  }

  lemma Admitted(stricter: Result<Decision>, looser: Result<Decision>, t: string)
    requires stricter.Ok? && Admits(Normalize, t, stricter.value.scope.paths)
    requires looser.Ok? && !Admits(Normalize, t, looser.value.scope.paths)
    ensures !AtLeastAsStrict(Normalize, stricter, looser)
  {
    hide Admits, BudgetsNarrower;
  }

  /** For every untidy path there are commands that read no other path and that added overlays relax. */
  lemma UntidyRelaxes(p: string) returns (request: Request, config: Config, more: seq<Overlay>)
    requires !Tidy(p)
    ensures Draws(request, config, more, JustOne(p), Nothing()) && Includes(more, request.overlays)
    ensures DrawsTarget(request, Nothing())
    ensures !AtLeastAsStrict(Normalize, Evaluate(Normalize, request.(overlays := more), config),
                             Evaluate(Normalize, request, config))
  {
    UntidyForms(p);
    hide *;
    var prefix := Normalize(p).value;
    if Normalize(prefix).Ok? && Normalize(Normalize(prefix).value).Ok? {
      request, config, more := OtherFormRelaxes(p, prefix);
    } else {
      request, config, more := RefusedFormRelaxes(p, prefix);
    }
  }

  lemma OtherFormRelaxes(p: string, prefix: string) returns (request: Request, config: Config, more: seq<Overlay>)
    requires Strip(p) != "" && Normalize(Strip(p)) == Ok(prefix)
    requires Normalize(prefix).Ok? && Normalize(Normalize(prefix).value).Ok?
    requires Normalize(Normalize(prefix).value) != Normalize(prefix)
    ensures Draws(request, config, more, JustOne(p), Nothing()) && Includes(more, request.overlays)
    ensures DrawsTarget(request, Nothing())
    ensures !AtLeastAsStrict(Normalize, Evaluate(Normalize, request.(overlays := more), config),
                             Evaluate(Normalize, request, config))
  {
    hide *;
    request, config, more := RunProbe(p, []), ProbeConfig("process", ROOTED), [PathOverlay("user", [p])];
    RunAdmitsMore(p, prefix, Normalize(prefix).value, Normalize(Normalize(prefix).value).value);
    RunOverlays(p, [], more);
    RootedDraws(p, request, more);
  }

  lemma RefusedFormRelaxes(p: string, prefix: string) returns (request: Request, config: Config, more: seq<Overlay>)
    requires Strip(p) != "" && Normalize(Strip(p)) == Ok(prefix)
    requires Normalize(prefix).Refused? || Normalize(Normalize(prefix).value).Refused?
    ensures Draws(request, config, more, JustOne(p), Nothing()) && Includes(more, request.overlays)
    ensures DrawsTarget(request, Nothing())
    ensures !AtLeastAsStrict(Normalize, Evaluate(Normalize, request.(overlays := more), config),
                             Evaluate(Normalize, request, config))
  {
    hide *;
    var o, e := PathOverlay("user", [p]), PathOverlay("organization", []);
    request, config, more := RunProbe(p, [o, o]), ProbeConfig("process", ROOTED), [e, o, o];
    RunRelaxes(p, prefix);
    Relaxed(Evaluate(Normalize, RunProbe(p, more), config), Evaluate(Normalize, request, config));
    RunOverlays(p, [o, o], more);
    RootedDraws(p, request, more);
  }

  lemma RunOverlays(p: string, few: seq<Overlay>, more: seq<Overlay>)
    ensures var r := RunProbe(p, few);
            r.overlays == few && r.(overlays := more) == RunProbe(p, more) && DrawsTarget(r, Nothing())
            && r.binding.accessProfileId == "p" && r.context.projectRoot == p && r.effect.domain == "process"
    ensures (forall o :: o in few ==> o in more) ==> Includes(more, few)
  {
  }

  /** Where the third form is another, an overlay that names the root leaves a command a scope that admits
      what the root does not. */
  lemma RunAdmitsMore(p: string, prefix: string, next: string, after: string)
    requires Strip(p) != "" && Normalize(Strip(p)) == Ok(prefix)
    requires Normalize(prefix) == Ok(next) && Normalize(next) == Ok(after) && after != next
    ensures var config := ProbeConfig("process", ROOTED);
            !AtLeastAsStrict(Normalize, Evaluate(Normalize, RunProbe(p, [PathOverlay("user", [p])]), config),
                             Evaluate(Normalize, RunProbe(p, []), config))
  {
    var o, config := PathOverlay("user", [p]), ProbeConfig("process", ROOTED);
    ProbeOrder(o, PathOverlay("organization", []));
    hide *;
    RunOnce(p, prefix, [], prefix);
    assert [o] + [] == [o];
    RunOnce(p, prefix, [o], next);
    ReadTests(prefix, next, after);
    Admitted(Evaluate(Normalize, RunProbe(p, [o]), config), Evaluate(Normalize, RunProbe(p, []), config), after);
  }

  /** A refused target is refused under any root, and denied once an overlay leaves no prefix. */
  lemma TargetRefusalLost(p: string, target: string)
    requires CanRoot(p) && Normalize(target).Refused?
    ensures var config, e := ProbeConfig("filesystem", ROOTED), PathOverlay("organization", []);
            var more := Evaluate(Normalize, ReadProbe(p, target, [e]), config);
            && Evaluate(Normalize, ReadProbe(p, target, []), config).Refused?
            && more.Ok? && more.value.status == Deny
  {
    var o, e := PathOverlay("user", [p]), PathOverlay("organization", []);
    ProbeOrder(o, e);
    StrippedNormal(p);
    RefusedTests(target, Normalize(p).value);
    hide Strip, Normalize, Settle, FoldOverlays, OrderOverlays, Conclude, Evaluate, AnyWithin, PathOverlay, ProbeConfig;
    RefusedFirst(p, target);
    DeniedThen(p, target);
  }

  lemma RefusedTests(target: string, prefix: string)
    requires Normalize(target).Refused?
    ensures AnyWithin(Normalize, target, [prefix]).Refused? && AnyWithin(Normalize, target, []) == Ok(false)
  {
    hide Normalize;
  }

  lemma RefusedFirst(p: string, target: string)
    requires Strip(p) != "" && Normalize(Strip(p)).Ok? && OrderOverlays([]) == Ok([])
    requires AnyWithin(Normalize, target, [Normalize(Strip(p)).value]).Refused?
    ensures Evaluate(Normalize, ReadProbe(p, target, []), ProbeConfig("filesystem", ROOTED)).Refused?
  {
    hide Strip, Normalize, Settle, FoldOverlays, OrderOverlays, Conclude, Evaluate, AnyWithin, ProbeConfig;
    var prefix := Normalize(Strip(p)).value;
    var request, config := ReadProbe(p, target, []), ProbeConfig("filesystem", ROOTED);
    RootedSetting(p, prefix, request.effect, []);
    var s := Settle(Normalize, request, config).value;
    InOrder(request, config, s);
    FoldNothing(Start(s));
    ReadRefusal(s, prefix, request, target, [prefix], s.budgets);
  }

  lemma DeniedThen(p: string, target: string)
    requires Strip(p) != "" && Normalize(Strip(p)).Ok?
    requires OrderOverlays([PathOverlay("organization", [])]) == Ok([PathOverlay("organization", [])])
    requires AnyWithin(Normalize, target, []) == Ok(false)
    ensures var d := Evaluate(Normalize, ReadProbe(p, target, [PathOverlay("organization", [])]),
            ProbeConfig("filesystem", ROOTED));
            d.Ok? && d.value.status == Deny
  {
    hide Strip, Normalize, Settle, FoldOverlays, OrderOverlays, Conclude, Evaluate, AnyWithin, PathOverlay,
      ProbeConfig, Apply, ReadOverlay, PathMeet;
    var e := PathOverlay("organization", []);
    var prefix := Normalize(Strip(p)).value;
    var request, config := ReadProbe(p, target, [e]), ProbeConfig("filesystem", ROOTED);
    RootedSetting(p, prefix, request.effect, [e]);
    var s := Settle(Normalize, request, config).value;
    InOrder(request, config, s);
    ReadEmptyOverlay("organization");
    ApplyPaths(Scope([prefix], [], [], []), s.budgets, []);
    EmptyMeet(prefix);
    FoldStep(Start(s), e, PathNarrowing([]), []);
    assert [e] + [] == [e];
    FoldNothing(Plainly(Scope([], [], [], []), s.budgets));
    ReadConclusion(s, prefix, request, target, [], s.budgets, false);
  }

  lemma EmptyMeet(prefix: string)
    ensures PathMeet(Normalize, [prefix], []) == Ok([])
  {
  }

  /** A scope climbs when it admits what the base does not, or keeps a prefix without a normal form. */
  lemma Climbed(request: Request, config: Config)
    requires Settle(Normalize, request, config).Ok? && Evaluate(Normalize, request, config).Ok?
    requires var d := Evaluate(Normalize, request, config).value.scope;
             var base := Settle(Normalize, request, config).value.base;
             || (exists t :: Admits(Normalize, t, d.paths) && !Admits(Normalize, t, base.paths))
             || (exists q :: q in d.paths && Normalize(q).Refused?)
             || (exists l :: l in d.leases && l !in base.leases)
             || (exists h :: DestinationAllowed(h, d.destinations) && !DestinationAllowed(h, base.destinations))
    ensures !UnderCeiling(request, config)
  {
    hide Settle, Evaluate, Admits, Normalize, DestinationAllowed, PolicyCeiling.TargetAdmitted;
  }

  /** ... and requests that climb above their ceiling. */
  lemma UntidyClimbs(p: string) returns (request: Request, config: Config)
    requires !Tidy(p)
    ensures Draws(request, config, request.overlays, JustOne(p), Nothing()) && DrawsHosts(request, config, Nothing())
    ensures Evaluate(Normalize, request, config).Ok? && !UnderCeiling(request, config)
  {
    hide Strip, Normalize, Evaluate, Draws, DrawsHosts, Settle, Tidy, ProbeConfig, Probe, PathOverlay, UnderCeiling,
      Admits;
    UntidyForms(p);
    var prefix := Normalize(p).value;
    var o := PathOverlay("user", [p]);
    if Normalize(prefix).Ok? && Normalize(Normalize(prefix).value).Ok? {
      var next := Normalize(prefix).value;
      var after := Normalize(next).value;
      request, config := ReadProbe(p, next, [o]), ProbeConfig("filesystem", ROOTED);
      ReadRelaxes(p, prefix, next, after);
      ReadTests(prefix, next, after);
      RootedSetting(p, prefix, Effect("filesystem", "read", Some(next)), [o]);
      ProbeOverlays(Effect("filesystem", "read", Some(next)), p, [], [o], []);
    } else {
      config := ProbeConfig("process", ROOTED);
      request := RunRefused(p, prefix);
      RootedSetting(p, prefix, RUN, request.overlays);
      ProbeOverlays(RUN, p, [], request.overlays, []);
    }
    Climbed(request, config);
    RootedDraws(p, request, request.overlays);
  }

  /** A command's effective scope keeps a prefix that has no normal form. */
  lemma RunRefused(p: string, prefix: string) returns (request: Request)
    requires Strip(p) != "" && Normalize(Strip(p)) == Ok(prefix)
    requires Normalize(prefix).Refused? || Normalize(Normalize(prefix).value).Refused?
    ensures request.overlays == [] || request.overlays == [PathOverlay("user", [p])]
    ensures request == RunProbe(p, request.overlays)
    ensures var d := Evaluate(Normalize, request, ProbeConfig("process", ROOTED));
            d.Ok? && exists q :: q in d.value.scope.paths && Normalize(q).Refused?
  {
    var o := PathOverlay("user", [p]);
    ProbeOrder(o, PathOverlay("organization", []));
    hide Strip, Normalize, OrderOverlays, Evaluate, ProbeConfig, PathOverlay, Probe;
    var left := if Normalize(prefix).Refused? then prefix else Normalize(prefix).value;
    var overlays := if Normalize(prefix).Refused? then [] else [o];
    request := RunProbe(p, overlays);
    ProbeOverlays(RUN, p, [], overlays, []);
    assert [o] + [] == [o];
    RunOnce(p, prefix, overlays, left);
    assert left in [left];
  }

  lemma RunOnce(p: string, prefix: string, overlays: seq<Overlay>, left: string)
    requires Strip(p) != "" && Normalize(Strip(p)) == Ok(prefix)
    requires (overlays == [] && left == prefix)
             || (overlays == [PathOverlay("user", [p])] + [] && Normalize(prefix) == Ok(left))
    requires OrderOverlays(overlays) == Ok(overlays)
    ensures var d := Evaluate(Normalize, RunProbe(p, overlays), ProbeConfig("process", ROOTED));
            d.Ok? && d.value.scope.paths == [left]
  {
    hide Strip, Normalize, Settle, FoldOverlays, OrderOverlays, Conclude, Evaluate, ProbeConfig, PathOverlay;
    var request, config := RunProbe(p, overlays), ProbeConfig("process", ROOTED);
    RootedSetting(p, prefix, RUN, overlays);
    var s := Settle(Normalize, request, config).value;
    InOrder(request, config, s);
    RootFold(p, prefix, s.budgets, []);
    FoldNothing(Plainly(Scope([left], [], [], []), s.budgets));
    RunConclusion(s, ROOTED, s.base, NOTHING, request, Scope([left], [], [], []), s.budgets);
  }

  // ----- a lease named "*"

  lemma LeasedSetting(lease: string, overlays: seq<Overlay>)
    requires Strip(lease) == ANY
    ensures var s := Settle(Normalize, LeaseProbe(lease, overlays), ProbeConfig("secret", LEASED));
            s.Ok? && ProbeSettled(s.value, LEASED, Scope([], [], [], [ANY]), NOTHING)
            && Start(s.value) == Plainly(Scope([], [], [], [ANY]), s.value.budgets)
  {
    hide Strip, Normalize, WideningStep, BaseScope, Settle;
    var base := Scope([], [], [], [ANY]);
    LeaseBase(lease, LeaseProbe(lease, overlays).context);
    NothingWidens(base);
    ProbeSetting(Effect("secret", "use", Some("x")), "", [], [lease], overlays, NO_WIDENING, LEASED, base, NOTHING);
  }

  lemma LeasedDraws(lease: string, overlays: seq<Overlay>, more: seq<Overlay>)
    requires forall o :: o in more ==> o == LeaseOverlay("x")
    ensures Draws(LeaseProbe(lease, overlays), ProbeConfig("secret", LEASED), more, Nothing(), JustOne(lease))
    ensures DrawsHosts(LeaseProbe(lease, overlays), ProbeConfig("secret", LEASED), Nothing())
  {
    OneLetter("p");
    hide Strip;
    var c := LeaseProbe(lease, overlays).context;
    assert RootsRead(LEASED, c) == [] && LeasesRead(LEASED, c) == [lease] && DestinationsRead("p", LEASED, c) == [];
  }

  lemma MetLease()
    ensures ReadOverlay(Normalize, LeaseOverlay("x")) == Ok(LeaseNarrowing(["x"])) && Meet([ANY], ["x"]) == ["x"]
  {
    ReadLeasesOverlay(["x"]);
    assert ANY in [ANY] && Elements(["x"]) == {"x"};
    SingletonSorted("x");
  }

  lemma StarOnce(lease: string, overlays: seq<Overlay>, final: seq<string>)
    requires Strip(lease) == ANY
    requires (overlays == [] && final == [ANY]) || (overlays == [LeaseOverlay("x")] + [] && final == ["x"])
    requires OrderOverlays(overlays) == Ok(overlays)
    ensures var d := Evaluate(Normalize, LeaseProbe(lease, overlays), ProbeConfig("secret", LEASED));
            d.Ok? && d.value.status == (if "x" in final then Allow else Deny) && d.value.scope.leases == final
  {
    hide Strip, Normalize, Settle, FoldOverlays, OrderOverlays, Conclude, Evaluate, Apply, ReadOverlay, LeaseOverlay,
      ProbeConfig;
    var request, config := LeaseProbe(lease, overlays), ProbeConfig("secret", LEASED);
    LeasedSetting(lease, overlays);
    var s := Settle(Normalize, request, config).value;
    InOrder(request, config, s);
    MetLease();
    ApplyLeases(s.budgets, [ANY], ["x"]);
    FoldStep(Start(s), LeaseOverlay("x"), LeaseNarrowing(["x"]), []);
    FoldNothing(Plainly(Scope([], [], [], final), s.budgets));
    LeaseConclusion(s, s.base, request, final, s.budgets);
  }

  /** An overlay that lists a lease lets it be used although the base list does not name it. */
  lemma StarRelaxes(lease: string)
    requires Strip(lease) == ANY
    ensures var config := ProbeConfig("secret", LEASED);
            var few := Evaluate(Normalize, LeaseProbe(lease, []), config);
            var more := Evaluate(Normalize, LeaseProbe(lease, [LeaseOverlay("x")]), config);
            && few.Ok? && few.value.status == Deny
            && more.Ok? && more.value.status == Allow && more.value.scope.leases == ["x"]
  {
    var o := LeaseOverlay("x");
    ProbeOrder(o, PathOverlay("organization", []));
    hide Strip, OrderOverlays, Evaluate, LeaseOverlay, LeaseProbe, ProbeConfig;
    assert [o] + [] == [o];
    assert "x" in ["x"] && "x" !in [ANY];
    StarOnce(lease, [], [ANY]);
    StarOnce(lease, [o], ["x"]);
  }

  // ----- a nested wildcard

  lemma HostedDraws(host: string, restored: string)
    ensures var r, c := HostProbe(host, restored), ProbeConfig("process", HOSTED);
            Draws(r, c, r.overlays, Nothing(), Nothing()) && DrawsHosts(r, c, JustOne(host))
  {
    OneLetter("p");
    hide Strip;
    var c := HostProbe(host, restored).context;
    assert RootsRead(HOSTED, c) == [] && LeasesRead(HOSTED, c) == [] && DestinationsRead("p", HOSTED, c) == [host];
  }

  lemma HostWidens(base: Scope, restored: string)
    requires Strip(restored) == restored && restored != "" && DestinationAllowed(restored, base.destinations)
    ensures WideningStep(Normalize, base, HostProbe("", restored).widening)
         == Ok((Widened({}, {Lower(restored)}, {}, {}, false), {}))
  {
    HostRead(base, restored);
    OneLetter("i");
    hide Strip, Normalize, ReadWidening;
    assert ValidApproval(Approval(true, "owner", "i")) == (true, {});
  }

  lemma HostRead(base: Scope, restored: string)
    requires Strip(restored) == restored && restored != "" && DestinationAllowed(restored, base.destinations)
    ensures ReadWidening(Normalize, base, HostProbe("", restored).widening)
         == Ok(Widened({}, {Lower(restored)}, {}, {}, false))
  {
    RestoredList(restored);
    RestoredHosts(base, restored);
    hide Strip, Normalize, DestinationAllowed, StringList, Holds, LeaseListed, Lower;
    assert RestorePaths(Normalize, base.paths, []) == Ok(({}, false));
    hide RestorePaths;
  }

  lemma RestoredHosts(base: Scope, restored: string)
    requires DestinationAllowed(restored, base.destinations)
    ensures (set h | h in [restored] && DestinationAllowed(h, base.destinations) :: Lower(h)) == {Lower(restored)}
    ensures var none: seq<string> := [];
            (set b | b in none && Holds(b, base.browsers)) == {} &&
                (set l | l in none && LeaseListed(l, base.leases)) == {}
  {
    hide DestinationAllowed, Holds, LeaseListed, Lower;
    assert restored in [restored];
  }

  lemma RestoredList(restored: string)
    requires Strip(restored) == restored && restored != ""
    ensures StringList([]) == Ok([]) && StringList([restored]) == Ok([restored])
  {
    hide Strip;
    assert StringList([]) == Ok([]);
    assert [restored][0] in [restored];
    assert StripAll([restored]) == [restored];
  }

  /** Restoring what a nested wildcard admits leaves a scope that admits more. */
  lemma NestedClimbs(host: string) returns (request: Request, config: Config)
    requires !Flat(host)
    ensures Draws(request, config, request.overlays, Nothing(), Nothing()) && DrawsHosts(request, config, JustOne(host))
    ensures Evaluate(Normalize, request, config).Ok? && !UnderCeiling(request, config)
  {
    ProbeOrder(LeaseOverlay("x"), PathOverlay("organization", []));
    StrippedAgain(host);
    var item := Strip(host);
    assert HostForm(item) == HostForm(host);
    assert item != "" by {
      assert RStripChar(Lower(""), '.') == "";
    }
    hide Strip, Normalize, Settle, FoldOverlays, OrderOverlays, Conclude, Evaluate, HostForm, NestedWildcard, Draws,
      DrawsHosts, BaseScope, WideningStep, DestinationAllowed, Blank;
    var restored, escaped := NestedWildcardEscapes(item);
    request, config := HostProbe(host, restored), ProbeConfig("process", HOSTED);
    var base := Scope([], [item], [], []);
    var widened := Widened({}, {Lower(restored)}, {}, {}, false);
    HostBase(host, request.context);
    HostWidens(base, restored);
    ProbeSetting(RUN, "", [host], [], [], request.widening, HOSTED, base, widened);
    var s := Settle(Normalize, request, config).value;
    InOrder(request, config, s);
    FoldNothing(Start(s));
    RunConclusion(s, HOSTED, base, widened, request, base, s.budgets);
    assert Evaluate(Normalize, request, config).value.scope == Widen(base, widened);
    WidenedAdmits(base, widened, Lower(restored), escaped);
    HostedDraws(host, restored);
  }

  lemma WidenedAdmits(base: Scope, widened: Widened, stored: string, host: string)
    requires stored in widened.destinations && DestinationAllowed(host, [stored])
    ensures DestinationAllowed(host, Widen(base, widened).destinations)
  {
    hide HostForm, MatchesForm;
    AddedNames(base.destinations, widened.destinations, stored);
  }

  // ----- the conditions are exact

  ghost predicate NeverRelaxes(path: string -> bool, lease: string -> bool, target: string -> bool) {
    forall request: Request, config: Config, more: seq<Overlay> ::
      Draws(request, config, more, path, lease) && DrawsTarget(request, target) && Includes(more, request.overlays) ==>
        AtLeastAsStrict(Normalize, Evaluate(Normalize, request.(overlays := more), config),
            Evaluate(Normalize, request, config))
  }

  /** No root among the paths meets a refused target. */
  ghost predicate TargetsReadable(path: string -> bool, target: string -> bool) {
    forall p, t :: path(p) && CanRoot(p) && target(t) ==> Normalize(t).Ok?
  }

  /** Overlays never relax any request that draws on some set of paths, leases and targets, refusals
      included, exactly when every path of the set is tidy, no lease of it names "*" and, unless it has no
      path to root a profile at, no target of it is refused. */
  lemma NeverRelaxesIff(path: string -> bool, lease: string -> bool, target: string -> bool)
    ensures NeverRelaxes(path, lease, target) <==>
            (forall p :: path(p) ==> Tidy(p)) && (forall l :: lease(l) ==> NotStar(l)) && TargetsReadable(path, target)
  {
    hide AtLeastAsStrict, Evaluate, Draws, DrawsTarget, Tidy, Includes, Strip, Normalize, CanRoot;
    if (forall p :: path(p) ==> Tidy(p)) && (forall l :: lease(l) ==> NotStar(l)) && TargetsReadable(path, target) {
      forall request: Request, config: Config, more: seq<Overlay>
        | Draws(request, config, more, path, lease) && DrawsTarget(request, target) && Includes(more, request.overlays)
        ensures AtLeastAsStrict(Normalize, Evaluate(Normalize, request.(overlays := more), config),
                                Evaluate(Normalize, request, config))
      {
        NeverRelaxed(request, config, more, path, lease, target);
      }
    } else if p :| path(p) && !Tidy(p) {
      var request, config, more := UntidyRelaxes(p);
      DrawsMore(request, config, more, JustOne(p), Nothing(), path, lease);
      DrawsMoreTargets(request, Nothing(), target);
    } else if l :| lease(l) && !NotStar(l) {
      var request, config, more := StarExample(l);
      DrawsMore(request, config, more, Nothing(), JustOne(l), path, lease);
      DrawsMoreTargets(request, Nothing(), target);
    } else {
      var p, t :| path(p) && CanRoot(p) && target(t) && Normalize(t).Refused?;
      var request, config, more := TargetExample(p, t);
      DrawsMore(request, config, more, JustOne(p), Nothing(), path, lease);
      DrawsMoreTargets(request, JustOne(t), target);
    }
  }

  lemma DrawsMoreTargets(request: Request, target: string -> bool, target': string -> bool)
    requires DrawsTarget(request, target) && forall t :: target(t) ==> target'(t)
    ensures DrawsTarget(request, target')
  {
  }

  lemma NeverRelaxed(request: Request, config: Config, more: seq<Overlay>, path: string -> bool, lease: string -> bool,
                     target: string -> bool)
    requires (forall p :: path(p) ==> Tidy(p)) && (forall l :: lease(l) ==> NotStar(l)) && TargetsReadable(path, target)
    requires Draws(request, config, more, path, lease) && DrawsTarget(request, target) &&
             Includes(more, request.overlays)
    ensures AtLeastAsStrict(Normalize, Evaluate(Normalize, request.(overlays := more), config),
                            Evaluate(Normalize, request, config))
  {
    DrawsMore(request, config, more, path, lease, Tidy, NotStar);
    OverlaysNeverRelax(request, config, more);
    hide AtLeastAsStrict, Evaluate, Tidy, NotStar, Includes, Strip, Normalize, CanRoot, Settle, BasePaths, RootsRead,
      LeasesRead, RefusedTarget, Draws;
    if RefusedTarget(Normalize, request.effect) && Settle(Normalize, request, config).Ok? {
      var s := Settle(Normalize, request, config).value;
      BaseOfSetting(request, config);
      NoRootsRead(request, config, more, path, lease, target);
      if s.base.paths != [] {
        BaseHasRoot(s.profile, request.context);
      }
    }
  }

  lemma NoRootsRead(request: Request, config: Config, more: seq<Overlay>, path: string -> bool, lease: string -> bool,
                    target: string -> bool)
    requires Draws(request, config, more, path, lease) && DrawsTarget(request, target) && TargetsReadable(path, target)
    requires RefusedTarget(Normalize, request.effect) && Strip(request.binding.accessProfileId) in config.profiles
    ensures forall p :: p in RootsRead(config.profiles[Strip(request.binding.accessProfileId)], request.context) ==>
            !CanRoot(p)
  {
    hide Strip, Normalize, CanRoot, RootsRead, LeasesRead;
    var roots := RootsRead(config.profiles[Strip(request.binding.accessProfileId)], request.context);
    forall p | p in roots ensures !CanRoot(p) {
      assert path(p);
    }
  }

  lemma TargetExample(p: string, t: string) returns (request: Request, config: Config, more: seq<Overlay>)
    requires CanRoot(p) && Normalize(t).Refused?
    ensures Draws(request, config, more, JustOne(p), Nothing()) && Includes(more, request.overlays)
    ensures DrawsTarget(request, JustOne(t))
    ensures !AtLeastAsStrict(Normalize, Evaluate(Normalize, request.(overlays := more), config),
                             Evaluate(Normalize, request, config))
  {
    hide Strip, Normalize, Evaluate, Draws, ProbeConfig, Probe, PathOverlay;
    var e := PathOverlay("organization", []);
    request, config, more := ReadProbe(p, t, []), ProbeConfig("filesystem", ROOTED), [e];
    TargetRefusalLost(p, t);
    ProbeOverlays(Effect("filesystem", "read", Some(t)), p, [], [], [e]);
    RootedDraws(p, request, more);
  }

  lemma StarExample(lease: string) returns (request: Request, config: Config, more: seq<Overlay>)
    requires !NotStar(lease)
    ensures Draws(request, config, more, Nothing(), JustOne(lease)) && Includes(more, request.overlays)
    ensures DrawsTarget(request, Nothing())
    ensures !AtLeastAsStrict(Normalize, Evaluate(Normalize, request.(overlays := more), config),
                             Evaluate(Normalize, request, config))
  {
    hide Strip, Evaluate, Draws, LeaseOverlay, ProbeConfig, Normalize;
    StarRelaxes(lease);
    request, config, more := LeaseProbe(lease, []), ProbeConfig("secret", LEASED), [LeaseOverlay("x")];
    assert request.(overlays := more) == LeaseProbe(lease, more);
    LeasedDraws(lease, [], more);
  }

  ghost predicate StaysUnder(path: string -> bool, lease: string -> bool, host: string -> bool) {
    forall request: Request, config: Config ::
      Draws(request, config, request.overlays, path, lease) && DrawsHosts(request, config, host) ==>
        Evaluate(Normalize, request, config).Refused? || UnderCeiling(request, config)
  }

  /** Every evaluation that draws on some set of paths, leases and destinations stays under its ceiling,
      overlays and widenings included, exactly when every path of the set is tidy, no lease names "*" and
      no destination is a nested wildcard. */
  lemma StaysUnderIff(path: string -> bool, lease: string -> bool, host: string -> bool)
    ensures StaysUnder(path, lease, host) <==>
            (forall p :: path(p) ==> Tidy(p)) && (forall l :: lease(l) ==> NotStar(l)) &&
                (forall h :: host(h) ==> Flat(h))
  {
    hide UnderCeiling, Evaluate, Draws, DrawsHosts, Tidy, Strip, HostForm, NestedWildcard;
    if (forall p :: path(p) ==> Tidy(p)) && (forall l :: lease(l) ==> NotStar(l)) && (forall h :: host(h) ==> Flat(h)) {
      forall request: Request, config: Config
        | Draws(request, config, request.overlays, path, lease) && DrawsHosts(request, config, host)
          && Evaluate(Normalize, request, config).Ok?
        ensures UnderCeiling(request, config)
      {
        DrawsMore(request, config, request.overlays, path, lease, Tidy, NotStar);
        DrawsMoreHosts(request, config, host, Flat);
        CeilingHolds(request, config);
      }
    } else if p :| path(p) && !Tidy(p) {
      var request, config := UntidyClimbs(p);
      DrawsMore(request, config, request.overlays, JustOne(p), Nothing(), path, lease);
      DrawsMoreHosts(request, config, Nothing(), host);
    } else if l :| lease(l) && !NotStar(l) {
      var request, config := StarClimbs(l);
      DrawsMore(request, config, request.overlays, Nothing(), JustOne(l), path, lease);
      DrawsMoreHosts(request, config, Nothing(), host);
    } else {
      var h :| host(h) && !Flat(h);
      var request, config := NestedClimbs(h);
      DrawsMore(request, config, request.overlays, Nothing(), Nothing(), path, lease);
      DrawsMoreHosts(request, config, JustOne(h), host);
    }
  }

  lemma StarClimbs(lease: string) returns (request: Request, config: Config)
    requires !NotStar(lease)
    ensures Draws(request, config, request.overlays, Nothing(), JustOne(lease)) &&
            DrawsHosts(request, config, Nothing())
    ensures Evaluate(Normalize, request, config).Ok? && !UnderCeiling(request, config)
  {
    hide Strip, Evaluate, Draws, DrawsHosts, Settle, LeaseOverlay, ProbeConfig, Normalize;
    StarRelaxes(lease);
    var overlays := [LeaseOverlay("x")];
    request, config := LeaseProbe(lease, overlays), ProbeConfig("secret", LEASED);
    LeasedSetting(lease, overlays);
    assert "x" in ["x"] && "x" !in [ANY];
    LeasedDraws(lease, overlays, overlays);
  }

  // ----- order

  ghost predicate Reordered(anyOrder: seq<Overlay>, overlays: seq<Overlay>) {
    forall o :: o in anyOrder <==> o in overlays
  }

  ghost predicate OrderMatters(request: Request, config: Config, anyOrder: seq<Overlay>) {
    && (forall o :: o in request.overlays ==> ValidKey(o)) && Reordered(anyOrder, request.overlays)
    && !PolicyOrder.SameVerdict(Normalize, Evaluate(Normalize, request, config),
                                EvaluateInOrder(Normalize, request, config, anyOrder))
  }

  lemma OrderDecides(request: Request, config: Config, overlays: seq<Overlay>, anyOrder: seq<Overlay>)
    requires request.overlays == overlays && Reordered(anyOrder, overlays) && forall o :: o in overlays ==> ValidKey(o)
    requires !PolicyOrder.SameVerdict(Normalize, Evaluate(Normalize, request, config),
                                      EvaluateInOrder(Normalize, request, config, anyOrder))
    ensures OrderMatters(request, config, anyOrder)
  {
    hide ValidKey, Evaluate, EvaluateInOrder, PolicyOrder.SameVerdict;
  }

  lemma ProbesHold(p: string, lease: string, overlays: seq<Overlay>)
    ensures var r := RunProbe(p, overlays);
            r.overlays == overlays && r.binding.accessProfileId == "p" && r.context.projectRoot == p && r.effect == RUN
    ensures LeaseProbe(lease, overlays).overlays == overlays
    ensures RUN.domain == "process"
  {
  }

  lemma RefusalDiffers(a: Result<Decision>)
    requires a.Ok?
    ensures !PolicyOrder.SameVerdict(Normalize, a, Refused)
  {
  }

  lemma Swapped(a: Overlay, b: Overlay)
    ensures Reordered([b, a], [a, b]) && Reordered([a, a, b], [b, a, a])
  {
  }

  /** Where the second or third form of a path is refused, the order of the overlays decides. */
  lemma OrderCanMatter(p: string) returns (request: Request, config: Config, anyOrder: seq<Overlay>)
    requires Normalize(p).Ok? && Strip(p) != ""
    requires var prefix := Normalize(p).value;
             Normalize(prefix).Refused? || Normalize(Normalize(prefix).value).Refused?
    ensures Draws(request, config, request.overlays, JustOne(p), Nothing()) && OrderMatters(request, config, anyOrder)
  {
    StrippedAgain(p);
    var o, e := PathOverlay("user", [p]), PathOverlay("organization", []);
    assert Normalize(Strip(p)) == Normalize(p);
    ProbeOrder(o, e);
    hide *;
    request, config, anyOrder := RunProbe(p, [e, o, o]), ProbeConfig("process", ROOTED), [o, o, e];
    RunRelaxes(p, Normalize(p).value);
    ProbesHold(p, p, [e, o, o]);
    RootedDraws(p, request, [e, o, o]);
    Swapped(o, e);
    RefusalDiffers(Evaluate(Normalize, request, config));
    OrderDecides(request, config, [e, o, o], anyOrder);
  }

  /** Where the third form is another, overlays that name the path and its stored form leave one prefix in
      one order and not in the other. */
  lemma FormsMeetByOrder(prefix: string, next: string, after: string)
    requires Normalize(prefix) == Ok(next) && Normalize(next) == Ok(after) && after != next
    ensures PathMeet(Normalize, [next], [next]) == Ok([after])
    ensures PathMeet(Normalize, [prefix], [next]).Ok?
    ensures var m := PathMeet(Normalize, [prefix], [next]).value;
            PathMeet(Normalize, m, [prefix]).Ok? && after !in PathMeet(Normalize, m, [prefix]).value
  {
    SelfMeet(next);
    NextFormIsOutside(next);
    hide *;
    OnlyNext(prefix, next, after);
    NeverAfter(PathMeet(Normalize, [prefix], [next]).value, prefix, next, after);
  }

  lemma OnlyNext(prefix: string, next: string, after: string)
    requires Normalize(prefix) == Ok(next) && Normalize(next) == Ok(after) && !Within(after, next)
    ensures PathMeet(Normalize, [prefix], [next]).Ok?
    ensures forall x :: x in PathMeet(Normalize, [prefix], [next]).value ==> x == next
  {
    hide Normalize, Within, PathMeet;
    assert AllNormalize(Normalize, [prefix]) && AllNormalize(Normalize, [next]);
    MeetMembers(Normalize, [prefix], [next], next);
    forall x ensures x in PathMeet(Normalize, [prefix], [next]).value ==> x == next {
      MeetMembers(Normalize, [prefix], [next], x);
    }
  }

  lemma NeverAfter(m: seq<string>, prefix: string, next: string, after: string)
    requires Normalize(prefix) == Ok(next) && Normalize(next) == Ok(after) && after != next && !Within(after, next)
    requires forall x :: x in m ==> x == next
    ensures PathMeet(Normalize, m, [prefix]).Ok? && after !in PathMeet(Normalize, m, [prefix]).value
  {
    hide Normalize, Within, PathMeet;
    assert AllNormalize(Normalize, m) && AllNormalize(Normalize, [prefix]);
    MeetMembers(Normalize, m, [prefix], after);
  }

  /** The list two path overlays leave, one after the other. */
  lemma TwoPathOverlays(prefix: string, budgets: Budgets, a: string, sa: string, b: string, sb: string)
    requires Strip(a) != "" && Normalize(Strip(a)) == Ok(sa) && Strip(b) != "" && Normalize(Strip(b)) == Ok(sb)
    requires PathMeet(Normalize, [prefix], [sa]).Ok?
    requires PathMeet(Normalize, PathMeet(Normalize, [prefix], [sa]).value, [sb]).Ok?
    ensures FoldOverlays(Normalize, Plainly(Scope([prefix], [], [], []), budgets),
                         [PathOverlay("user", [a]), PathOverlay("user", [b])])
         == Ok(Plainly(Scope(PathMeet(Normalize, PathMeet(Normalize, [prefix], [sa]).value, [sb]).value, [], [], []),
             budgets))
  {
    hide Strip, Normalize, FoldOverlays, PathMeet, Apply, ReadOverlay, PathOverlay;
    var oa, ob := PathOverlay("user", [a]), PathOverlay("user", [b]);
    ReadPathOverlay("user", a, sa);
    ReadPathOverlay("user", b, sb);
    var m := PathMeet(Normalize, [prefix], [sa]).value;
    ApplyPaths(Scope([prefix], [], [], []), budgets, [sa]);
    ApplyPaths(Scope(m, [], [], []), budgets, [sb]);
    FoldStep(Plainly(Scope([prefix], [], [], []), budgets), oa, PathNarrowing([sa]), [ob]);
    FoldStep(Plainly(Scope(m, [], [], []), budgets), ob, PathNarrowing([sb]), []);
    FoldNothing(Plainly(Scope(PathMeet(Normalize, m, [sb]).value, [], [], []), budgets));
    assert [oa] + [ob] == [oa, ob] && [ob] + [] == [ob];
  }

  /** What a command keeps of its paths under two path overlays in the order given. */
  lemma RunUnderTwo(p: string, prefix: string, overlays: seq<Overlay>, a: string, sa: string, b: string, sb: string)
    requires Strip(p) != "" && Normalize(Strip(p)) == Ok(prefix)
    requires Strip(a) != "" && Normalize(Strip(a)) == Ok(sa) && Strip(b) != "" && Normalize(Strip(b)) == Ok(sb)
    requires PathMeet(Normalize, [prefix], [sa]).Ok?
    requires PathMeet(Normalize, PathMeet(Normalize, [prefix], [sa]).value, [sb]).Ok?
    ensures var d := EvaluateInOrder(Normalize, RunProbe(p, overlays), ProbeConfig("process", ROOTED),
                                     [PathOverlay("user", [a]), PathOverlay("user", [b])]);
            d.Ok? && d.value.scope.paths == PathMeet(Normalize, PathMeet(Normalize, [prefix], [sa]).value, [sb]).value
  {
    hide Strip, Normalize, Settle, FoldOverlays, Conclude, ProbeConfig, PathOverlay, PathMeet;
    var request, config := RunProbe(p, overlays), ProbeConfig("process", ROOTED);
    RootedSetting(p, prefix, RUN, overlays);
    var s := Settle(Normalize, request, config).value;
    TwoPathOverlays(prefix, s.budgets, a, sa, b, sb);
    var m := PathMeet(Normalize, PathMeet(Normalize, [prefix], [sa]).value, [sb]).value;
    RunConclusion(s, ROOTED, s.base, NOTHING, request, Scope(m, [], [], []), s.budgets);
  }

  lemma PathsDiffer(a: Result<Decision>, b: Result<Decision>, p: string)
    requires a.Ok? && b.Ok? && p in a.value.scope.paths && p !in b.value.scope.paths
    ensures !PolicyOrder.SameVerdict(Normalize, a, b)
  {
    hide ScopeNarrower;
  }

  lemma UserOrder(a: Overlay, b: Overlay)
    requires a.layer == "user" && b.layer == "user" && a.overlayId == "o" && b.overlayId == "o"
    ensures OrderOverlays([a, b]) == Ok([a, b]) && ValidKey(a) && ValidKey(b)
  {
    OneLetter("o");
    hide Strip;
    StrLessIrreflexive("o");
    assert !KeyLess(b, a);
    hide KeyLess;
    Sorting.SortByFixed(KeyLess, [a, b]);
  }

  lemma FormOrderMatters(p: string, prefix: string, next: string, after: string)
    returns (request: Request, config: Config, anyOrder: seq<Overlay>)
    requires Strip(p) != "" && Normalize(Strip(p)) == Ok(prefix)
    requires Normalize(prefix) == Ok(next) && Normalize(next) == Ok(after) && after != next
    ensures forall path: string -> bool :: path(p) && path(prefix) ==>
            Draws(request, config, request.overlays, path, Nothing())
    ensures OrderMatters(request, config, anyOrder)
  {
    StrippedNext(prefix, next, after);
    FormsMeetByOrder(prefix, next, after);
    SelfMeet(prefix);
    var o, d := PathOverlay("user", [p]), PathOverlay("user", [prefix]);
    UserOrder(o, d);
    hide *;
    request, config, anyOrder := RunProbe(p, [o, d]), ProbeConfig("process", ROOTED), [d, o];
    ProbesHold(p, p, [o, d]);
    RunUnderTwo(p, prefix, [o, d], p, prefix, prefix, next);
    RunUnderTwo(p, prefix, [o, d], prefix, next, p, prefix);
    InTheirOrder(request, config);
    assert after in [after];
    PathsDiffer(Evaluate(Normalize, request, config), EvaluateInOrder(Normalize, request, config, anyOrder), after);
    Swapped(o, d);
    OrderDecides(request, config, [o, d], anyOrder);
    forall path: string -> bool | path(p) && path(prefix)
      ensures Draws(request, config, request.overlays, path, Nothing())
    {
      TwoDraws(p, prefix, request, path);
    }
  }

  lemma TwoDraws(p: string, prefix: string, request: Request, path: string -> bool)
    requires path(p) && path(prefix)
    requires request == RunProbe(p, [PathOverlay("user", [p]), PathOverlay("user", [prefix])])
    ensures Draws(request, ProbeConfig("process", ROOTED), request.overlays, path, Nothing())
  {
    OneLetter("p");
    hide Strip;
    assert RootsRead(ROOTED, request.context) == [p] && LeasesRead(ROOTED, request.context) == [];
  }

  lemma StrippedNext(prefix: string, next: string, after: string)
    requires Normalize(prefix) == Ok(next) && Normalize(next) == Ok(after) && after != next
    ensures Strip(prefix) != "" && Normalize(Strip(prefix)) == Ok(next)
  {
    StrippedAgain(prefix);
    EmptyIsTidy();
    assert Normalize(Strip(prefix)) == Normalize(prefix) by {
      hide Paths.NormalizeText;
    }
    hide Normalize;
  }

  // ... and leases

  lemma MetStars()
    ensures ReadOverlay(Normalize, LeasesOverlay([ANY])) == Ok(LeaseNarrowing([ANY]))
    ensures ReadOverlay(Normalize, LeasesOverlay([ANY, "x"])) == Ok(LeaseNarrowing([ANY, "x"]))
    ensures "x" !in Meet(Meet([ANY], [ANY, "x"]), [ANY]) && "x" in Meet(Meet([ANY], [ANY]), [ANY, "x"])
  {
    ReadLeasesOverlay([ANY]);
    ReadLeasesOverlay([ANY, "x"]);
    assert ANY in [ANY] && ANY in [ANY, "x"] && "x" in [ANY, "x"] && "x" !in [ANY];
    MeetIsMeet(ANY, [ANY], [ANY, "x"]);
    MeetIsMeet(ANY, [ANY], [ANY]);
  }

  lemma LeasesInOrder(lease: string, overlays: seq<Overlay>, a: seq<string>, b: seq<string>)
    requires Strip(lease) == ANY
    requires ReadOverlay(Normalize, LeasesOverlay(a)) == Ok(LeaseNarrowing(a))
    requires ReadOverlay(Normalize, LeasesOverlay(b)) == Ok(LeaseNarrowing(b))
    ensures var d := EvaluateInOrder(Normalize, LeaseProbe(lease, overlays), ProbeConfig("secret", LEASED),
                                     [LeasesOverlay(a), LeasesOverlay(b)]);
            d.Ok? && d.value.scope.leases == Meet(Meet([ANY], a), b)
  {
    hide Strip, Normalize, Settle, FoldOverlays, Conclude, ProbeConfig, LeasesOverlay, Meet, ReadOverlay, Apply,
      LeaseNarrowing;
    var request, config := LeaseProbe(lease, overlays), ProbeConfig("secret", LEASED);
    LeasedSetting(lease, overlays);
    var s := Settle(Normalize, request, config).value;
    var oa, ob := LeasesOverlay(a), LeasesOverlay(b);
    var once := Meet([ANY], a);
    ApplyLeases(s.budgets, [ANY], a);
    ApplyLeases(s.budgets, once, b);
    FoldStep(Start(s), oa, LeaseNarrowing(a), [ob]);
    FoldStep(Plainly(Scope([], [], [], once), s.budgets), ob, LeaseNarrowing(b), []);
    FoldNothing(Plainly(Scope([], [], [], Meet(once, b)), s.budgets));
    assert [oa] + [ob] == [oa, ob] && [ob] + [] == [ob];
    LeaseConclusion(s, s.base, request, Meet(once, b), s.budgets);
  }

  lemma LeasesDiffer(a: Result<Decision>, b: Result<Decision>, l: string)
    requires a.Ok? && b.Ok? && l !in a.value.scope.leases && l in b.value.scope.leases
    ensures !PolicyOrder.SameVerdict(Normalize, a, b)
  {
    hide Admits, Holds;
  }

  /** With a lease named "*" the later of two overlays that list "*" decides what else is usable. */
  lemma StarOrderMatters(lease: string) returns (request: Request, config: Config, anyOrder: seq<Overlay>)
    requires !NotStar(lease)
    ensures Draws(request, config, request.overlays, Nothing(), JustOne(lease)) &&
            OrderMatters(request, config, anyOrder)
  {
    assert Strip(lease) == ANY;
    var both, star := [ANY, "x"], [ANY];
    var a, b := LeasesOverlay(both), LeasesOverlay(star);
    MetStars();
    UserOrder(a, b);
    StarDraws(lease, [a, b]);
    hide *;
    request, config, anyOrder := LeaseProbe(lease, [a, b]), ProbeConfig("secret", LEASED), [b, a];
    LeasesInOrder(lease, [a, b], both, star);
    LeasesInOrder(lease, [a, b], star, both);
    ProbesHold(lease, lease, [a, b]);
    InTheirOrder(request, config);
    LeasesDiffer(Evaluate(Normalize, request, config), EvaluateInOrder(Normalize, request, config, anyOrder), "x");
    Swapped(a, b);
    OrderDecides(request, config, [a, b], anyOrder);
  }

  lemma StarDraws(lease: string, overlays: seq<Overlay>)
    requires forall o :: o in overlays ==> o.pathPrefixes.None?
    ensures Draws(LeaseProbe(lease, overlays), ProbeConfig("secret", LEASED), overlays, Nothing(), JustOne(lease))
  {
    OneLetter("p");
    hide Strip;
    var c := LeaseProbe(lease, overlays).context;
    assert RootsRead(LEASED, c) == [] && LeasesRead(LEASED, c) == [lease];
  }

  ghost predicate OrderNeverDecides(path: string -> bool, lease: string -> bool) {
    forall request: Request, config: Config, anyOrder: seq<Overlay> ::
      Draws(request, config, request.overlays, path, lease) ==> !OrderMatters(request, config, anyOrder)
  }

  /** For a set of paths that holds the normal form of each of them: the order of the overlays never decides
      a request that draws on the set exactly when every path of it is tidy and no lease names "*". */
  lemma OrderNeverDecidesIff(path: string -> bool, lease: string -> bool)
    requires forall p :: path(p) && Normalize(p).Ok? ==> path(Normalize(p).value)
    ensures OrderNeverDecides(path, lease) <==>
            (forall p :: path(p) ==> Tidy(p)) && (forall l :: lease(l) ==> NotStar(l))
  {
    hide OrderMatters, Draws, Tidy, Strip, Normalize;
    if (forall p :: path(p) ==> Tidy(p)) && (forall l :: lease(l) ==> NotStar(l)) {
      forall request: Request, config: Config, anyOrder: seq<Overlay>
        | Draws(request, config, request.overlays, path, lease)
        ensures !OrderMatters(request, config, anyOrder)
      {
        DrawsMore(request, config, request.overlays, path, lease, Tidy, NotStar);
        TidyOrder(request, config, anyOrder);
      }
    } else if p :| path(p) && !Tidy(p) {
      var request, config, anyOrder := UntidyOrderMatters(p, path);
      DrawsMore(request, config, request.overlays, path, Nothing(), path, lease);
    } else {
      var l :| lease(l) && !NotStar(l);
      var request, config, anyOrder := StarOrderMatters(l);
      DrawsMore(request, config, request.overlays, Nothing(), JustOne(l), path, lease);
    }
  }

  lemma TidyOrder(request: Request, config: Config, anyOrder: seq<Overlay>)
    requires Draws(request, config, request.overlays, Tidy, NotStar)
    ensures !OrderMatters(request, config, anyOrder)
  {
    hide Draws, ValidKey, Evaluate, EvaluateInOrder, PolicyOrder.SameVerdict;
    if (forall o :: o in request.overlays ==> ValidKey(o)) && Reordered(anyOrder, request.overlays) {
      OrderNeverMatters(request, config, anyOrder);
    }
  }

  lemma UntidyOrderMatters(p: string, path: string -> bool)
      returns (request: Request, config: Config, anyOrder: seq<Overlay>)
    requires !Tidy(p) && path(p) && (Normalize(p).Ok? ==> path(Normalize(p).value))
    ensures Draws(request, config, request.overlays, path, Nothing()) && OrderMatters(request, config, anyOrder)
  {
    UntidyForms(p);
    hide OrderMatters, Draws, Tidy, Strip, Normalize;
    var prefix := Normalize(p).value;
    if Normalize(prefix).Ok? && Normalize(Normalize(prefix).value).Ok? {
      var next := Normalize(prefix).value;
      request, config, anyOrder := FormOrderMatters(p, prefix, next, Normalize(next).value);
    } else {
      request, config, anyOrder := OrderCanMatter(p);
      DrawsMore(request, config, request.overlays, JustOne(p), Nothing(), path, Nothing());
    }
  }
}
