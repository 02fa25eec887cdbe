/** The routing policy written out over a candidate's fields: which candidates are eligible, what each
    rejection code stands for, and what each field is worth to the score. */
module RoutePolicy {
  import opened Wrappers
  import opened Text
  import opened CircuitBreaker
  import opened ModelRouter
  import Sorting

  // ----- the eleven clauses

  /** The provider's circuit is open: opened, and its cooldown is not over. */
  ghost predicate CircuitBlocks(healths: HealthMap, now: int, c: Candidate) {
    var id := c.provider + "/" + c.model;
    id in healths && healths[id].state == Open
    && (healths[id].openedAt.Some? ==> now - healths[id].openedAt.value < healths[id].cooldownSeconds)
  }

  /** The boundary is no wider than the other: local, then private remote, then public cloud. */
  ghost predicate NoWider(b: Boundary, maximum: Boundary) {
    b == Local || b == maximum || maximum == PublicCloud
  }

  /** The clause on the candidate's standing or place that the code names is broken. */
  ghost predicate BreaksStanding(r: RoutingRequest, c: Candidate, code: string) {
    || (code == "disabled" && !c.enabled)
    || (code == "not_user_approved" && !c.approved)
    || (code == "role_unsupported" && r.role !in c.roles)
    || (code == "provider_not_allowed" && r.allowedProviders != {} && c.provider !in r.allowedProviders)
    || (code == "local_only_policy" && r.localOnly && c.boundary != Local)
    || (code == "data_boundary_exceeds_policy" && !NoWider(c.boundary, r.maximumBoundary))
  }

  /** The clause on its capacity, cost, reliability or availability that the code names is broken. */
  ghost predicate BreaksFitness(r: RoutingRequest, healths: HealthMap, now: int, c: Candidate, code: string) {
    || (code == "context_too_small" && c.contextTokens < r.requiredContextTokens)
    || (code == "cost_exceeds_policy" && r.maximumCost.Some? && c.costPerMillionTokens > r.maximumCost.value)
    || (code == "tool_schema_reliability_below_threshold" && r.requireToolSchemaReliability && c.toolSchemaScore < 0.75)
    || (code == "provider_circuit_open" && CircuitBlocks(healths, now, c))
    || (code == "fallback_approval_required" && c.requiresFallbackApproval && !r.fallbackApprovalGranted)
  }

  ghost predicate Breaks(r: RoutingRequest, healths: HealthMap, now: int, c: Candidate, code: string) {
    BreaksStanding(r, c, code) || BreaksFitness(r, healths, now, c, code)
  }

  /** The candidate meets all of them. */
  ghost predicate Meets(r: RoutingRequest, healths: HealthMap, now: int, c: Candidate) {
    && c.enabled && c.approved && r.role in c.roles
    && (r.allowedProviders == {} || c.provider in r.allowedProviders)
    && (r.localOnly ==> c.boundary == Local) && NoWider(c.boundary, r.maximumBoundary)
    && c.contextTokens >= r.requiredContextTokens
    && (r.maximumCost.Some? ==> c.costPerMillionTokens <= r.maximumCost.value)
    && (r.requireToolSchemaReliability ==> c.toolSchemaScore >= 0.75)
    && !CircuitBlocks(healths, now, c)
    && (c.requiresFallbackApproval ==> r.fallbackApprovalGranted)
  }

  lemma CircuitExact(healths: HealthMap, now: int, c: Candidate)
    ensures CircuitOf(healths, now, c) == Open <==> CircuitBlocks(healths, now, c)
  {
  }

  ghost function StandingCodes(r: RoutingRequest, c: Candidate): set<string> {
    When(!c.enabled, "disabled") + When(!c.approved, "not_user_approved") + When(r.role !in c.roles, "role_unsupported")
    + When(r.allowedProviders != {} && c.provider !in r.allowedProviders, "provider_not_allowed")
    + When(r.localOnly && c.boundary != Local, "local_only_policy")
    + When(BoundaryRank(c.boundary) > BoundaryRank(r.maximumBoundary), "data_boundary_exceeds_policy")
  }

  lemma StandingExact(r: RoutingRequest, c: Candidate, code: string)
    ensures code in StandingCodes(r, c) <==> BreaksStanding(r, c, code)
  {
    hide NoWider, BoundaryRank;
    BoundaryExact(c.boundary, r.maximumBoundary);
  }

  lemma FitnessExact(r: RoutingRequest, healths: HealthMap, now: int, c: Candidate, code: string)
    ensures code in Reasons(r, healths, now, c) <==>
            code in StandingCodes(r, c) || BreaksFitness(r, healths, now, c, code)
  {
    hide CircuitOf, CircuitBlocks, StandingCodes, Reasons;
    CircuitExact(healths, now, c);
    AllCodes(r, healths, now, c);
  }

  lemma AllCodes(r: RoutingRequest, healths: HealthMap, now: int, c: Candidate)
    ensures Reasons(r, healths, now, c) ==
            StandingCodes(r, c)
            + When(c.contextTokens < r.requiredContextTokens, "context_too_small")
            + When(r.maximumCost.Some? && c.costPerMillionTokens > r.maximumCost.value, "cost_exceeds_policy")
            + When(r.requireToolSchemaReliability && c.toolSchemaScore < 0.75,
                   "tool_schema_reliability_below_threshold")
            + When(CircuitOf(healths, now, c) == Open, "provider_circuit_open")
            + When(c.requiresFallbackApproval && !r.fallbackApprovalGranted, "fallback_approval_required")
  {
    hide CircuitOf, BoundaryRank, When;
  }

  lemma CodesExact(r: RoutingRequest, healths: HealthMap, now: int, c: Candidate, code: string)
    ensures code in Reasons(r, healths, now, c) <==> Breaks(r, healths, now, c, code)
  {
    hide Reasons, StandingCodes, BreaksStanding, BreaksFitness;
    StandingExact(r, c, code);
    FitnessExact(r, healths, now, c, code);
  }

  lemma BoundaryExact(b: Boundary, maximum: Boundary)
    ensures NoWider(b, maximum) <==> BoundaryRank(b) <= BoundaryRank(maximum)
  {
  }

  lemma MeetsExact(r: RoutingRequest, healths: HealthMap, now: int, c: Candidate)
    ensures Eligible(r, healths, now, c) <==> Meets(r, healths, now, c)
  {
    hide CircuitOf, CircuitBlocks;
    CircuitExact(healths, now, c);
    if Meets(r, healths, now, c) {
      assert Reasons(r, healths, now, c) == {};
    }
    assert Eligible(r, healths, now, c) ==> forall code :: code !in Reasons(r, healths, now, c);
  }

  // ----- the decision

  /** A candidate has an eligible row exactly when it meets the eleven clauses, every other candidate has a
      rejected row with exactly the codes of the clauses it breaks, and something is selected exactly when
      some candidate meets them all. */
  lemma RouteExact(r: RoutingRequest, healths: HealthMap, now: int, cs: seq<Candidate>)
    ensures var d := Route(r, healths, now, cs);
            && (forall c :: (exists row :: row in d.eligible && row.candidate == c) <==>
                  c in cs && Meets(r, healths, now, c))
            && (forall row :: row in d.rejected ==> exists c :: RejectedFor(r, healths, now, cs, c, row))
            && (forall c :: c in cs && !Meets(r, healths, now, c) ==>
                  exists row :: row in d.rejected && RejectedFor(r, healths, now, cs, c, row))
            && (d.selected.Some? <==> exists c :: c in cs && Meets(r, healths, now, c))
            && (d.approvalRequired <==>
                  exists c :: c in cs && c.requiresFallbackApproval && !r.fallbackApprovalGranted)
  {
    hide Reasons, Score, CircuitOf, EligibleRows, Meets, Eligible, Route, RejectedFor, Breaks;
    var d := Route(r, healths, now, cs);
    RoutePartitions(r, healths, now, cs);
    SelectedIsBest(r, healths, now, cs);
    forall c ensures Eligible(r, healths, now, c) <==> Meets(r, healths, now, c) {
      MeetsExact(r, healths, now, c);
    }
    forall c ensures "fallback_approval_required" in Reasons(r, healths, now, c) <==>
                     c.requiresFallbackApproval && !r.fallbackApprovalGranted {
      CodesExact(r, healths, now, c, "fallback_approval_required");
      FallbackClause(r, healths, now, c);
    }
    forall c | c in cs && !Meets(r, healths, now, c)
      ensures RejectedFor(r, healths, now, cs, c, RejectionOf(r, healths, now, c))
    {
      RejectionExact(r, healths, now, cs, c);
    }
    forall c | c in cs && Meets(r, healths, now, c) ensures RowOf(r, healths, now, c).candidate == c {
    }
  }

  /** The row may stand before the other: a higher score, or the same and no larger an identity. */
  ghost predicate MayPrecede(a: EligibleRow, b: EligibleRow) {
    a.score > b.score || (a.score == b.score && !StrLess(b.candidate.Identity(), a.candidate.Identity()))
  }

  /** Eligible rows come by falling score and then by identity, the selected one first; rejected rows come by
      identity. */
  lemma RowsInOrder(r: RoutingRequest, healths: HealthMap, now: int, cs: seq<Candidate>)
    ensures var d := Route(r, healths, now, cs);
            && (d.eligible != [] ==> d.selected == Some(d.eligible[0].candidate))
            && (forall i, j :: 0 <= i < j < |d.eligible| ==> MayPrecede(d.eligible[i], d.eligible[j]))
            && (forall i, j :: 0 <= i < j < |d.rejected| ==>
                  !StrLess(d.rejected[j].identity, d.rejected[i].identity))
  {
    hide EligibleRows, RejectedRows;
    RowOrder();
    RejectedOrder();
    var eligible, rejected := EligibleRows(r, healths, now, cs), RejectedRows(r, healths, now, cs);
    Sorting.SortBySpec(RowLess, eligible);
    Sorting.SortBySpec(IdentityLess, rejected);
    var rows, others := Sorting.SortBy(RowLess, eligible), Sorting.SortBy(IdentityLess, rejected);
    forall i, j | 0 <= i < j < |rows| ensures MayPrecede(rows[i], rows[j]) {
      assert !RowLess(rows[j], rows[i]);
    }
    forall i, j | 0 <= i < j < |others| ensures !StrLess(others[j].identity, others[i].identity) {
      assert !IdentityLess(others[j], others[i]);
    }
  }

  lemma RejectedOrder()
    ensures Sorting.StrictWeak(IdentityLess)
  {
    forall a, b ensures IdentityLess(a, b) ==> !IdentityLess(b, a) {
      StrLessTotal(a.identity, b.identity);
    }
    forall a, b, c | !IdentityLess(a, b) && !IdentityLess(b, c) ensures !IdentityLess(a, c) {
      StrNotLess(a.identity, b.identity, c.identity);
    }
  }

  /** The row is the candidate's: its identity, its circuit and, in order, the codes of the clauses it breaks. */
  ghost predicate RejectedFor(r: RoutingRequest, healths: HealthMap, now: int, cs: seq<Candidate>, c: Candidate,
      row: RejectedRow)
  {
    && c in cs && row.identity == c.provider + "/" + c.model
    && row.circuit == CircuitOf(healths, now, c)
    && row.reasons != [] && Text.Ascending(row.reasons)
    && forall code :: code in row.reasons <==> Breaks(r, healths, now, c, code)
  }

  lemma FallbackClause(r: RoutingRequest, healths: HealthMap, now: int, c: Candidate)
    ensures Breaks(r, healths, now, c, "fallback_approval_required") <==>
            c.requiresFallbackApproval && !r.fallbackApprovalGranted
  {
    hide CircuitBlocks, NoWider;
  }

  lemma RejectionExact(r: RoutingRequest, healths: HealthMap, now: int, cs: seq<Candidate>, c: Candidate)
    requires c in cs && !Meets(r, healths, now, c)
    ensures RejectedFor(r, healths, now, cs, c, RejectionOf(r, healths, now, c))
  {
    hide Reasons, CircuitOf, Breaks, Meets, Text.Ascending;
    MeetsExact(r, healths, now, c);
    forall code ensures code in Reasons(r, healths, now, c) <==> Breaks(r, healths, now, c, code) {
      CodesExact(r, healths, now, c, code);
    }
    var code :| code in Reasons(r, healths, now, c);
    assert code in RejectionOf(r, healths, now, c).reasons;
  }

  // ----- what the score is worth

  /** A candidate scores for itself, before its provider's health: hundred for the benchmark, the tool
      schema by its weight, eight for being local, up to twenty for its place among the preferred models;
      less a point for each second and half a point for each unit of cost, 25 at most. */
  lemma ScoreExact(role: Role, preferred: seq<string>, healths: HealthMap, now: int, c: Candidate, rank: nat)
    requires c.provider + "/" + c.model !in healths
    requires Ranked(preferred, c.provider + "/" + c.model, rank)
    ensures Score(role, preferred, healths, now, c) ==
            100.0 * c.benchmarkScore
            + (if role == Executor then 45.0 * c.toolSchemaScore else 20.0 * c.toolSchemaScore)
            + (if rank < 20 then 20.0 - rank as real else 0.0)
            + (if c.boundary == Local then 8.0 else 0.0)
            - (if c.latencyMsP50 > 25000 then 25.0 else c.latencyMsP50 as real / 1000.0)
            - (if c.costPerMillionTokens > 50.0 then 25.0 else c.costPerMillionTokens / 2.0)
  {
    hide LastIndex;
    RankRead(preferred, c.provider + "/" + c.model, rank);
  }

  /** The last place of the identity among the preferred models, or any place from 20 on for none. */
  ghost predicate Ranked(preferred: seq<string>, identity: string, rank: nat) {
    if identity in preferred then
      rank < |preferred| && preferred[rank] == identity && identity !in preferred[rank + 1..]
    else rank >= 20
  }

  lemma {:induction false} RankRead(preferred: seq<string>, identity: string, rank: nat)
    requires Ranked(preferred, identity, rank)
    ensures LastIndex(preferred, identity) == if identity in preferred then Some(rank) else None
  {
    if preferred != [] {
      var n := |preferred| - 1;
      assert preferred == preferred[..n] + [preferred[n]];
      if preferred[n] == identity {
        LastInTail(preferred, rank);
      } else {
        assert identity in preferred ==> preferred[..n][rank] == identity;
        assert identity in preferred ==> preferred[rank + 1..] == preferred[..n][rank + 1..] + [preferred[n]];
        RankRead(preferred[..n], identity, rank);
      }
    }
  }

  lemma LastInTail(items: seq<string>, rank: nat)
    requires items != []
    ensures rank < |items| - 1 ==> items[|items| - 1] in items[rank + 1..]
  {
    if rank < |items| - 1 {
      assert items[rank + 1..][|items| - 2 - rank] == items[|items| - 1];
    }
  }

  /** The provider's health costs eight for each failure in a row, 30 at most, and 15 when it is half open. */
  lemma HealthCosts(role: Role, preferred: seq<string>, healths: HealthMap, now: int, c: Candidate)
    requires c.provider + "/" + c.model in healths
    ensures var health := healths[c.provider + "/" + c.model];
            var halfOpen := health.state == HalfOpen
                            || (health.state == Open && health.openedAt.Some?
                                && now - health.openedAt.value >= health.cooldownSeconds);
            Score(role, preferred, healths, now, c) ==
            Score(role, preferred, map[], now, c)
            - (if health.consecutiveFailures >= 4 then 30.0 else 8.0 * health.consecutiveFailures as real)
            - (if halfOpen then 15.0 else 0.0)
  {
    hide LastIndex;
  }
}
