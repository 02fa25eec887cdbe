/** `ModelRouter.route`: policy-clamped model selection by score. Scores are real numbers. */
module ModelRouter {
  import opened Wrappers
  import opened Text
  import opened CircuitBreaker
  import Sorting

  datatype Role = Router | Spec | Planner | Executor | Verifier | Summarizer | Research | SafetyReviewer

  datatype Boundary = Local | PrivateRemote | PublicCloud

  function BoundaryRank(b: Boundary): nat {
    match b
    case Local => 0
    case PrivateRemote => 1
    case PublicCloud => 2
  }

  datatype Candidate = Candidate(
    provider: string, model: string, roles: set<Role>, boundary: Boundary, contextTokens: int,
    benchmarkScore: real, latencyMsP50: int, costPerMillionTokens: real, toolSchemaScore: real,
    approved: bool, requiresFallbackApproval: bool, enabled: bool)
  {
    function Identity(): string {
      provider + "/" + model
    }
  }

  datatype RoutingRequest = RoutingRequest(
    role: Role, requiredContextTokens: int, maximumBoundary: Boundary, allowedProviders: set<string>,
    preferredModels: seq<string>, localOnly: bool, maximumCost: Option<real>,
    requireToolSchemaReliability: bool, fallbackApprovalGranted: bool)

  type HealthMap = map<string, ProviderHealth>

  function HealthOf(healths: HealthMap, c: Candidate): ProviderHealth {
    if c.Identity() in healths then healths[c.Identity()] else FRESH
  }

  /** The state the router reads: the stored one, half-open once the cooldown is over. */
  function CircuitOf(healths: HealthMap, now: int, c: Candidate): CircuitState {
    Breaker.Make(3, 120).EffectiveState(HealthOf(healths, c), now)
  }

  function When(condition: bool, code: string): set<string> {
    if condition then {code} else {}
  }

  /** The clauses a candidate breaks. */
  function Reasons(r: RoutingRequest, healths: HealthMap, now: int, c: Candidate): set<string> {
    When(!c.enabled, "disabled")
    + When(!c.approved, "not_user_approved")
    + When(r.role !in c.roles, "role_unsupported")
    + When(r.allowedProviders != {} && c.provider !in r.allowedProviders, "provider_not_allowed")
    + When(r.localOnly && c.boundary != Local, "local_only_policy")
    + When(BoundaryRank(c.boundary) > BoundaryRank(r.maximumBoundary), "data_boundary_exceeds_policy")
    + When(c.contextTokens < r.requiredContextTokens, "context_too_small")
    + When(r.maximumCost.Some? && c.costPerMillionTokens > r.maximumCost.value, "cost_exceeds_policy")
    + When(r.requireToolSchemaReliability && c.toolSchemaScore < 0.75, "tool_schema_reliability_below_threshold")
    + When(CircuitOf(healths, now, c) == Open, "provider_circuit_open")
    + When(c.requiresFallbackApproval && !r.fallbackApprovalGranted, "fallback_approval_required")
  }

  predicate Eligible(r: RoutingRequest, healths: HealthMap, now: int, c: Candidate) {
    Reasons(r, healths, now, c) == {}
  }

  function MinReal(a: real, b: real): real {
    if a <= b then a else b
  }

  /** The last position of an identity among the preferred models. */
  function LastIndex(items: seq<string>, x: string): Option<nat> {
    if items == [] then None
    else if items[|items| - 1] == x then Some(|items| - 1)
    else LastIndex(items[..|items| - 1], x)
  }

  function PreferenceBonus(preferred: seq<string>, identity: string): real {
    match LastIndex(preferred, identity)
    case None => 0.0
    case Some(rank) => if rank < 20 then (20 - rank) as real else 0.0
  }

  function Bonus(role: Role, preferred: seq<string>, c: Candidate): real {
    var localBonus := if c.boundary == Local then 8.0 else 0.0;
    var reliability := c.toolSchemaScore * (if role == Executor then 45.0 else 20.0);
    c.benchmarkScore * 100.0 + reliability + PreferenceBonus(preferred, c.Identity()) + localBonus
  }

  function Penalty(healths: HealthMap, now: int, c: Candidate): real {
    var latencyPenalty := MinReal(25.0, c.latencyMsP50 as real / 1000.0);
    var costPenalty := MinReal(25.0, c.costPerMillionTokens / 2.0);
    var failurePenalty := MinReal(30.0, HealthOf(healths, c).consecutiveFailures as real * 8.0);
    var halfOpenPenalty := if CircuitOf(healths, now, c) == HalfOpen then 15.0 else 0.0;
    latencyPenalty + costPenalty + failurePenalty + halfOpenPenalty
  }

  /** The score: independent of the policy clauses, it reads the role and the preferred models only. */
  function Score(role: Role, preferred: seq<string>, healths: HealthMap, now: int, c: Candidate): real {
    Bonus(role, preferred, c) - Penalty(healths, now, c)
  }

  datatype EligibleRow = EligibleRow(score: real, candidate: Candidate, circuit: CircuitState)

  datatype RejectedRow = RejectedRow(identity: string, reasons: seq<string>, circuit: CircuitState)

  function RowOf(r: RoutingRequest, healths: HealthMap, now: int, c: Candidate): EligibleRow {
    EligibleRow(Score(r.role, r.preferredModels, healths, now, c), c, CircuitOf(healths, now, c))
  }

  function RejectionOf(r: RoutingRequest, healths: HealthMap, now: int, c: Candidate): RejectedRow {
    RejectedRow(c.Identity(), SortedSet(Reasons(r, healths, now, c)), CircuitOf(healths, now, c))
  }

  /** Higher scores first, ties by identity. */
  predicate RowLess(a: EligibleRow, b: EligibleRow) {
    || a.score > b.score
    || (a.score == b.score && StrLess(a.candidate.Identity(), b.candidate.Identity()))
  }

  predicate IdentityLess(a: RejectedRow, b: RejectedRow) {
    StrLess(a.identity, b.identity)
  }

  function EligibleRows(r: RoutingRequest, healths: HealthMap, now: int, cs: seq<Candidate>): seq<EligibleRow> {
    if cs == [] then []
    else
      var before := EligibleRows(r, healths, now, cs[..|cs| - 1]);
      var c := cs[|cs| - 1];
      if Eligible(r, healths, now, c) then before + [RowOf(r, healths, now, c)] else before
  }

  function RejectedRows(r: RoutingRequest, healths: HealthMap, now: int, cs: seq<Candidate>): seq<RejectedRow> {
    if cs == [] then []
    else
      var before := RejectedRows(r, healths, now, cs[..|cs| - 1]);
      var c := cs[|cs| - 1];
      if Eligible(r, healths, now, c) then before else before + [RejectionOf(r, healths, now, c)]
  }

  datatype RouteDecision = RouteDecision(
    selected: Option<Candidate>, eligible: seq<EligibleRow>, rejected: seq<RejectedRow>, approvalRequired: bool)

  function Route(r: RoutingRequest, healths: HealthMap, now: int, cs: seq<Candidate>): RouteDecision {
    var eligible := Sorting.SortBy(RowLess, EligibleRows(r, healths, now, cs));
    var rejected := Sorting.SortBy(IdentityLess, RejectedRows(r, healths, now, cs));
    RouteDecision(
      if eligible == [] then None else Some(eligible[0].candidate),
      eligible, rejected,
      exists row :: row in rejected && "fallback_approval_required" in row.reasons)
  }

  /** `route`: one pass that files each candidate, then two sorts. */
  method RouteCandidates(r: RoutingRequest, healths: HealthMap, now: int, cs: seq<Candidate>)
      returns (decision: RouteDecision)
    ensures decision == Route(r, healths, now, cs)
  {
    hide Reasons, Score, RowLess;
    var eligible: seq<EligibleRow>, rejected: seq<RejectedRow> := [], [];
    for i := 0 to |cs|
      invariant eligible == EligibleRows(r, healths, now, cs[..i])
      invariant rejected == RejectedRows(r, healths, now, cs[..i])
    {
      var c := cs[i];
      assert cs[..i + 1][..i] == cs[..i];
      var reasons := Reasons(r, healths, now, c);
      if reasons != {} {
        rejected := rejected + [RejectedRow(c.Identity(), SortedSet(reasons), CircuitOf(healths, now, c))];
      } else {
        var score := Score(r.role, r.preferredModels, healths, now, c);
        eligible := eligible + [EligibleRow(score, c, CircuitOf(healths, now, c))];
      }
    }
    assert cs[..|cs|] == cs;
    eligible := Sorting.SortBy(RowLess, eligible);
    rejected := Sorting.SortBy(IdentityLess, rejected);
    var selected := if eligible == [] then None else Some(eligible[0].candidate);
    decision := RouteDecision(selected, eligible, rejected,
                              exists row :: row in rejected && "fallback_approval_required" in row.reasons);
  }

  // ----- every candidate lands in exactly one list

  lemma {:induction false} RowMembers(r: RoutingRequest, healths: HealthMap, now: int, cs: seq<Candidate>)
    ensures forall row :: row in EligibleRows(r, healths, now, cs) <==>
              row.candidate in cs && Eligible(r, healths, now, row.candidate) &&
                  row == RowOf(r, healths, now, row.candidate)
    ensures forall row :: row in RejectedRows(r, healths, now, cs) <==>
              exists c :: c in cs && !Eligible(r, healths, now, c) && row == RejectionOf(r, healths, now, c)
    ensures |EligibleRows(r, healths, now, cs)| + |RejectedRows(r, healths, now, cs)| == |cs|
  {
    hide Reasons, Eligible, Score, CircuitOf, RejectionOf, RowOf;
    if cs != [] {
      var n := |cs| - 1;
      RowMembers(r, healths, now, cs[..n]);
      assert forall c :: c in cs <==> c in cs[..n] || c == cs[n];
      assert RowOf(r, healths, now, cs[n]).candidate == cs[n] by {
        RowCandidate(r, healths, now, cs[n]);
      }
    }
  }

  lemma RowCandidate(r: RoutingRequest, healths: HealthMap, now: int, c: Candidate)
    ensures RowOf(r, healths, now, c).candidate == c
  {
  }

  /** Eligible and rejected rows account for every candidate exactly once: by eligibility, by count, and
      with the complete reasons of each rejection. */
  lemma RoutePartitions(r: RoutingRequest, healths: HealthMap, now: int, cs: seq<Candidate>)
    ensures var d := Route(r, healths, now, cs);
            && |d.eligible| + |d.rejected| == |cs|
            && (forall row :: row in d.eligible <==>
                  row.candidate in cs && Eligible(r, healths, now, row.candidate) &&
                      row == RowOf(r, healths, now, row.candidate))
            && (forall row :: row in d.rejected <==>
                  exists c :: c in cs && !Eligible(r, healths, now, c) && row == RejectionOf(r, healths, now, c))
            && (d.approvalRequired <==>
                  exists c :: c in cs && "fallback_approval_required" in Reasons(r, healths, now, c))
  {
    hide Reasons, Score, CircuitOf, RowOf, EligibleRows, RejectedRows, RowLess, IdentityLess;
    RowMembers(r, healths, now, cs);
    Sorting.SortBySpec(RowLess, EligibleRows(r, healths, now, cs));
    Sorting.SortBySpec(IdentityLess, RejectedRows(r, healths, now, cs));
    var d := Route(r, healths, now, cs);
    forall c | c in cs && "fallback_approval_required" in Reasons(r, healths, now, c)
      ensures RejectionOf(r, healths, now, c) in d.rejected
    {
      assert !Eligible(r, healths, now, c);
    }
  }

  // ----- the choice

  /** `a` goes before `b`: a higher score, or the same score and the smaller identity. */
  predicate Beats(r: RoutingRequest, healths: HealthMap, now: int, a: Candidate, b: Candidate) {
    RowLess(RowOf(r, healths, now, a), RowOf(r, healths, now, b))
  }

  lemma RowOrder()
    ensures Sorting.StrictWeak(RowLess)
  {
    forall a, b ensures RowLess(a, b) ==> !RowLess(b, a) {
      StrLessTotal(a.candidate.Identity(), b.candidate.Identity());
    }
    forall a, b, c | !RowLess(a, b) && !RowLess(b, c) ensures !RowLess(a, c) {
      StrNotLess(a.candidate.Identity(), b.candidate.Identity(), c.candidate.Identity());
    }
  }

  /** The selected candidate is eligible and no eligible candidate goes before it; nothing is selected
      only when nothing is eligible. */
  lemma SelectedIsBest(r: RoutingRequest, healths: HealthMap, now: int, cs: seq<Candidate>)
    ensures match Route(r, healths, now, cs).selected
            case None => forall c :: c in cs ==> !Eligible(r, healths, now, c)
            case Some(best) =>
              && best in cs && Eligible(r, healths, now, best)
              && forall c :: c in cs && Eligible(r, healths, now, c) ==> !Beats(r, healths, now, c, best)
  {
    hide Eligible, RowOf, EligibleRows, RowLess, RejectedRows;
    RowMembers(r, healths, now, cs);
    var rows := EligibleRows(r, healths, now, cs);
    var sorted := Sorting.SortBy(RowLess, rows);
    Sorting.SortBySpec(RowLess, rows);
    RowOrder();
    forall c | c in cs && Eligible(r, healths, now, c)
      ensures sorted != [] && !RowLess(RowOf(r, healths, now, c), sorted[0])
    {
      RowCandidate(r, healths, now, c);
      var row := RowOf(r, healths, now, c);
      assert row in sorted;
      var i :| 0 <= i < |sorted| && sorted[i] == row;
      assert !RowLess(row, row);
    }
    if sorted != [] {
      assert sorted[0] in sorted;
    }
  }

  ghost predicate DistinctIdentities(cs: seq<Candidate>) {
    forall a, b :: a in cs && b in cs && a.Identity() == b.Identity() ==> a == b
  }

  /** Two policies score alike when they ask for the same role and prefer the same models. */
  predicate SameScoring(r: RoutingRequest, r': RoutingRequest) {
    r.role == r'.role && r.preferredModels == r'.preferredModels
  }

  /** The choice survives any change that keeps it eligible and admits no new rival: another order of
      the candidates, fewer candidates, or a tighter policy. */
  lemma ChoiceSurvives(r: RoutingRequest, r': RoutingRequest, healths: HealthMap, now: int, cs: seq<Candidate>,
      cs': seq<Candidate>)
    requires SameScoring(r, r') && DistinctIdentities(cs)
    requires Route(r, healths, now, cs).selected.Some?
    requires var best := Route(r, healths, now, cs).selected.value;
             best in cs' && Eligible(r', healths, now, best)
    requires forall c :: c in cs' && Eligible(r', healths, now, c) ==> c in cs && Eligible(r, healths, now, c)
    ensures Route(r', healths, now, cs').selected == Route(r, healths, now, cs).selected
  {
    hide Eligible, Score, Route, CircuitOf, Reasons;
    SelectedIsBest(r, healths, now, cs);
    SelectedIsBest(r', healths, now, cs');
    var best, best' := Route(r, healths, now, cs).selected.value, Route(r', healths, now, cs').selected.value;
    StrLessTotal(best.Identity(), best'.Identity());
  }

  /** The order of the candidates is irrelevant. */
  lemma OrderIrrelevant(r: RoutingRequest, healths: HealthMap, now: int, cs: seq<Candidate>, cs': seq<Candidate>)
    requires DistinctIdentities(cs) && forall c :: c in cs <==> c in cs'
    ensures Route(r, healths, now, cs').selected == Route(r, healths, now, cs).selected
  {
    hide Eligible, Route;
    SelectedIsBest(r, healths, now, cs);
    SelectedIsBest(r, healths, now, cs');
    if Route(r, healths, now, cs).selected.Some? {
      ChoiceSurvives(r, r, healths, now, cs, cs');
    }
  }

  // ----- tightening

  /** Every clause of `r'` asks at least what the clause of `r` asks. An empty provider list allows all. */
  predicate Tighter(r': RoutingRequest, r: RoutingRequest) {
    && SameScoring(r, r')
    && r'.requiredContextTokens >= r.requiredContextTokens
    && BoundaryRank(r'.maximumBoundary) <= BoundaryRank(r.maximumBoundary)
    && (r.allowedProviders == {} || (r'.allowedProviders != {} && r'.allowedProviders <= r.allowedProviders))
    && (r.localOnly ==> r'.localOnly)
    && (r.maximumCost.Some? ==> r'.maximumCost.Some? && r'.maximumCost.value <= r.maximumCost.value)
    && (r.requireToolSchemaReliability ==> r'.requireToolSchemaReliability)
    && (r'.fallbackApprovalGranted ==> r.fallbackApprovalGranted)
  }

  /** A tighter policy only adds reasons. */
  lemma TighterAddsReasons(r': RoutingRequest, r: RoutingRequest, healths: HealthMap, now: int, c: Candidate)
    requires Tighter(r', r)
    ensures Reasons(r, healths, now, c) <= Reasons(r', healths, now, c)
  {
  }

  /** Tightening the policy while the choice stays eligible never changes the choice. */
  lemma TighteningKeepsChoice(r': RoutingRequest, r: RoutingRequest, healths: HealthMap, now: int, cs: seq<Candidate>)
    requires Tighter(r', r) && DistinctIdentities(cs)
    requires Route(r, healths, now, cs).selected.Some?
    requires Eligible(r', healths, now, Route(r, healths, now, cs).selected.value)
    ensures Route(r', healths, now, cs).selected == Route(r, healths, now, cs).selected
  {
    hide Reasons, Route, Score;
    SelectedIsBest(r, healths, now, cs);
    forall c | c in cs && Eligible(r', healths, now, c) ensures Eligible(r, healths, now, c) {
      TighterAddsReasons(r', r, healths, now, c);
    }
    ChoiceSurvives(r, r', healths, now, cs, cs);
  }

  /** Privacy never widens: under a local-only policy only local models are ever chosen, and none beyond
      the permitted boundary, provider list or cost. */
  lemma ChoiceObeysPolicy(r: RoutingRequest, healths: HealthMap, now: int, cs: seq<Candidate>)
    requires Route(r, healths, now, cs).selected.Some?
    ensures var c := Route(r, healths, now, cs).selected.value;
            && c in cs && c.enabled && c.approved && r.role in c.roles
            && (r.localOnly ==> c.boundary == Local)
            && BoundaryRank(c.boundary) <= BoundaryRank(r.maximumBoundary)
            && (r.allowedProviders != {} ==> c.provider in r.allowedProviders)
            && (r.maximumCost.Some? ==> c.costPerMillionTokens <= r.maximumCost.value)
            && c.contextTokens >= r.requiredContextTokens
            && CircuitOf(healths, now, c) != Open
            && (c.requiresFallbackApproval ==> r.fallbackApprovalGranted)
            && (r.requireToolSchemaReliability ==> c.toolSchemaScore >= 0.75)
  {
    hide Route;
    SelectedIsBest(r, healths, now, cs);
    var c := Route(r, healths, now, cs).selected.value;
    assert forall code :: code !in Reasons(r, healths, now, c);
  }

  // ----- what the score rewards

  /** `d` is preferred only where `c` is, no later in the list. */
  predicate PreferredBefore(preferred: seq<string>, c: Candidate, d: Candidate) {
    match LastIndex(preferred, d.Identity())
    case None => true
    case Some(rank) => LastIndex(preferred, c.Identity()).Some? && LastIndex(preferred, c.Identity()).value <= rank
  }

  /** `c` is at least as good as `d` in everything the score looks at. */
  predicate AsGood(r: RoutingRequest, healths: HealthMap, now: int, c: Candidate, d: Candidate) {
    && c.benchmarkScore >= d.benchmarkScore && c.toolSchemaScore >= d.toolSchemaScore
    && c.latencyMsP50 <= d.latencyMsP50 && c.costPerMillionTokens <= d.costPerMillionTokens
    && (d.boundary == Local ==> c.boundary == Local)
    && HealthOf(healths, c).consecutiveFailures <= HealthOf(healths, d).consecutiveFailures
    && (CircuitOf(healths, now, c) == HalfOpen ==> CircuitOf(healths, now, d) == HalfOpen)
    && PreferredBefore(r.preferredModels, c, d)
  }

  /** Being as good everywhere never scores less, and a better benchmark then scores more. */
  lemma ScoreRespectsMerit(r: RoutingRequest, healths: HealthMap, now: int, c: Candidate, d: Candidate)
    requires AsGood(r, healths, now, c, d)
    ensures Score(r.role, r.preferredModels, healths, now, c) >= Score(r.role, r.preferredModels, healths, now, d)
    ensures c.benchmarkScore > d.benchmarkScore || c.toolSchemaScore > d.toolSchemaScore ==>
              Score(r.role, r.preferredModels, healths, now, c) > Score(r.role, r.preferredModels, healths, now, d)
  {
    BonusRespectsMerit(r, healths, now, c, d);
    PenaltyRespectsMerit(r, healths, now, c, d);
    hide Bonus, Penalty, AsGood;
  }

  lemma BonusRespectsMerit(r: RoutingRequest, healths: HealthMap, now: int, c: Candidate, d: Candidate)
    requires AsGood(r, healths, now, c, d)
    ensures Bonus(r.role, r.preferredModels, c) >= Bonus(r.role, r.preferredModels, d)
    ensures c.benchmarkScore > d.benchmarkScore || c.toolSchemaScore > d.toolSchemaScore ==>
              Bonus(r.role, r.preferredModels, c) > Bonus(r.role, r.preferredModels, d)
  {
    PreferenceRespected(r.preferredModels, c, d);
    hide CircuitOf, HealthOf, PreferredBefore, PreferenceBonus;
    if r.role == Executor {
      assert c.toolSchemaScore * 45.0 >= d.toolSchemaScore * 45.0;
    } else {
      assert c.toolSchemaScore * 20.0 >= d.toolSchemaScore * 20.0;
    }
  }

  lemma PenaltyRespectsMerit(r: RoutingRequest, healths: HealthMap, now: int, c: Candidate, d: Candidate)
    requires AsGood(r, healths, now, c, d)
    ensures Penalty(healths, now, c) <= Penalty(healths, now, d)
  {
    Capped(25.0, c.latencyMsP50 as real / 1000.0, d.latencyMsP50 as real / 1000.0);
    Capped(25.0, c.costPerMillionTokens / 2.0, d.costPerMillionTokens / 2.0);
    Capped(30.0, HealthOf(healths, c).consecutiveFailures as real * 8.0,
        HealthOf(healths, d).consecutiveFailures as real * 8.0);
    hide CircuitOf, HealthOf, PreferredBefore, MinReal;
  }

  lemma PreferenceRespected(preferred: seq<string>, c: Candidate, d: Candidate)
    requires PreferredBefore(preferred, c, d)
    ensures PreferenceBonus(preferred, c.Identity()) >= PreferenceBonus(preferred, d.Identity())
  {
  }

  lemma Capped(cap: real, a: real, b: real)
    ensures a <= b ==> MinReal(cap, a) <= MinReal(cap, b)
  {
  }

  /** A candidate that an eligible rival matches everywhere and beats on benchmark or tool use is never
      chosen. */
  lemma DominatedIsNotChosen(r: RoutingRequest, healths: HealthMap, now: int, cs: seq<Candidate>, c: Candidate,
      d: Candidate)
    requires c in cs && Eligible(r, healths, now, c) && AsGood(r, healths, now, c, d)
    requires c.benchmarkScore > d.benchmarkScore || c.toolSchemaScore > d.toolSchemaScore
    ensures Route(r, healths, now, cs).selected != Some(d)
  {
    hide Eligible, Route, Score, AsGood;
    ScoreRespectsMerit(r, healths, now, c, d);
    SelectedIsBest(r, healths, now, cs);
  }

  /** The bonuses and penalties are capped: with scores in [0, 1] and no negative cost or latency, the
      score lies within 95 below and the tool weight plus 28 above the benchmark's hundred points. */
  lemma ScoreSpread(role: Role, preferred: seq<string>, healths: HealthMap, now: int, c: Candidate)
    requires 0.0 <= c.toolSchemaScore <= 1.0 && c.latencyMsP50 >= 0 && c.costPerMillionTokens >= 0.0
    ensures var weight := if role == Executor then 45.0 else 20.0;
            c.benchmarkScore * 100.0 - 95.0 <= Score(role, preferred, healths, now, c)
                                            <= c.benchmarkScore * 100.0 + weight + 28.0
  {
    hide CircuitOf, HealthOf, LastIndex;
    var weight := if role == Executor then 45.0 else 20.0;
    assert 0.0 <= c.toolSchemaScore * weight <= weight;
    assert 0.0 <= PreferenceBonus(preferred, c.Identity()) <= 20.0;
  }
}
