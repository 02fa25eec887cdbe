/** `SemanticProgressEngine.compare`: what changed between two fact snapshots, and whether it counts. */
module SemanticProgress {
  import opened Text

  datatype Snapshot = Snapshot(
    artifacts: map<string, string>, evidence: set<string>, activeErrors: set<string>,
    satisfiedCriteria: set<string>, externalState: set<string>,
    planRevision: string, actionFingerprint: string, resultFingerprint: string)

  datatype Change = Change(path: string, before: string, after: string)

  datatype Delta = Delta(
    newArtifacts: seq<string>, changedArtifacts: seq<Change>, removedArtifacts: seq<string>,
    newEvidence: seq<string>, resolvedErrors: seq<string>, newErrors: seq<string>,
    criteriaSatisfied: seq<string>, criteriaRegressed: seq<string>, newExternalState: seq<string>,
    planRevised: bool, repeatedAction: bool, repeatedResult: bool, semanticProgress: bool, reasons: seq<string>)

  function ChangedAmong(paths: seq<string>, before: map<string, string>, after: map<string, string>): seq<Change>
    requires forall p :: p in paths ==> p in before && p in after
  {
    if paths == [] then []
    else
      var p := paths[0];
      var rest := ChangedAmong(paths[1..], before, after);
      if before[p] != after[p] then [Change(p, before[p], after[p])] + rest else rest
  }

  function Say(condition: bool, code: string): seq<string> {
    if condition then [code] else []
  }

  function Compare(before: Snapshot, after: Snapshot): Delta {
    var created := SortedSet(after.artifacts.Keys - before.artifacts.Keys);
    var removed := SortedSet(before.artifacts.Keys - after.artifacts.Keys);
    var changed := ChangedAmong(SortedSet(before.artifacts.Keys * after.artifacts.Keys), before.artifacts,
        after.artifacts);
    var evidence := SortedSet(after.evidence - before.evidence);
    var resolved := SortedSet(before.activeErrors - after.activeErrors);
    var errors := SortedSet(after.activeErrors - before.activeErrors);
    var satisfied := SortedSet(after.satisfiedCriteria - before.satisfiedCriteria);
    var regressed := SortedSet(before.satisfiedCriteria - after.satisfiedCriteria);
    var external := SortedSet(after.externalState - before.externalState);
    var revised := after.planRevision != "" && after.planRevision != before.planRevision;
    var sameAction := before.actionFingerprint != "" && before.actionFingerprint == after.actionFingerprint;
    var sameResult := before.resultFingerprint != "" && before.resultFingerprint == after.resultFingerprint;
    var positive := created != [] || changed != [] || evidence != [] || resolved != [] || satisfied != []
                    || external != [] || revised;
    var reasons := Say(created != [], "required_or_observed_artifact_created")
      + Say(changed != [], "artifact_hash_changed")
      + Say(evidence != [], "new_independent_evidence")
      + Say(resolved != [], "error_resolved")
      + Say(satisfied != [], "acceptance_criterion_verified")
      + Say(external != [], "external_state_changed")
      + Say(revised, "plan_validly_revised")
      + Say(!positive, "no_durable_fact_changed")
      + Say(sameAction, "action_repeated")
      + Say(sameResult, "result_repeated")
      + Say(removed != [] || regressed != [] || errors != [], "state_regressed");
    Delta(created, changed, removed, evidence, resolved, errors, satisfied, regressed, external,
          revised, sameAction, sameResult, positive, reasons)
  }

  // ----- what the artifact lists say

  lemma {:induction false} ChangedMembers(paths: seq<string>, before: map<string, string>, after: map<string, string>)
    requires forall p :: p in paths ==> p in before && p in after
    ensures forall c :: c in ChangedAmong(paths, before, after) <==>
              c.path in paths && before[c.path] != after[c.path] && c.before == before[c.path] &&
                  c.after == after[c.path]
  {
    if paths != [] {
      ChangedMembers(paths[1..], before, after);
    }
  }

  /** The artifacts, errors and criteria afterwards are those before, less what the delta removes, with
      what it adds, and a kept artifact's digest differs exactly when the delta lists the change. */
  lemma DeltaAccounts(before: Snapshot, after: Snapshot)
    ensures var d := Compare(before, after);
            && after.artifacts.Keys == before.artifacts.Keys - Elements(d.removedArtifacts) + Elements(d.newArtifacts)
            && Elements(d.removedArtifacts) <= before.artifacts.Keys
            && Elements(d.newArtifacts) !! before.artifacts.Keys
            && (forall p :: p in before.artifacts && p in after.artifacts ==>
                  (before.artifacts[p] != after.artifacts[p]
                   <==> Change(p, before.artifacts[p], after.artifacts[p]) in d.changedArtifacts))
            && (forall c :: c in d.changedArtifacts ==> c.path in before.artifacts && c.path in after.artifacts)
            && after.activeErrors == before.activeErrors - Elements(d.resolvedErrors) + Elements(d.newErrors)
            && after.satisfiedCriteria
               == before.satisfiedCriteria - Elements(d.criteriaRegressed) + Elements(d.criteriaSatisfied)
  {
    hide SortedSet;
    var common := SortedSet(before.artifacts.Keys * after.artifacts.Keys);
    ChangedMembers(common, before.artifacts, after.artifacts);
  }

  // ----- the other lists and flags

  ghost predicate Lists(list: seq<string>, inOne: set<string>, notInOther: set<string>) {
    Ascending(list) && forall x :: x in list <==> x in inOne && x !in notInOther
  }

  /** Every list holds, in order, what one snapshot has and the other lacks; the plan is revised when it has a
      new revision, and an action or a result repeats when it has the same fingerprint and one at all. */
  lemma DeltaExact(before: Snapshot, after: Snapshot)
    ensures var d := Compare(before, after);
            && Lists(d.newArtifacts, after.artifacts.Keys, before.artifacts.Keys)
            && Lists(d.removedArtifacts, before.artifacts.Keys, after.artifacts.Keys)
            && Lists(d.newEvidence, after.evidence, before.evidence)
            && Lists(d.resolvedErrors, before.activeErrors, after.activeErrors)
            && Lists(d.newErrors, after.activeErrors, before.activeErrors)
            && Lists(d.criteriaSatisfied, after.satisfiedCriteria, before.satisfiedCriteria)
            && Lists(d.criteriaRegressed, before.satisfiedCriteria, after.satisfiedCriteria)
            && Lists(d.newExternalState, after.externalState, before.externalState)
            && (d.planRevised <==> after.planRevision != "" && after.planRevision != before.planRevision)
            && (d.repeatedAction <==>
                  before.actionFingerprint != "" && after.actionFingerprint == before.actionFingerprint)
            && (d.repeatedResult <==>
                  before.resultFingerprint != "" && after.resultFingerprint == before.resultFingerprint)
            && (d.semanticProgress <==>
                  || d.newArtifacts != [] || d.changedArtifacts != [] || d.newEvidence != [] || d.resolvedErrors != []
                  || d.criteriaSatisfied != [] || d.newExternalState != [] || d.planRevised)
  {
    hide ChangedAmong, Say, Ascending;
  }

  ghost predicate InPathOrder(changes: seq<Change>) {
    forall i, j :: 0 <= i < j < |changes| ==> StrLess(changes[i].path, changes[j].path)
  }

  lemma {:induction false} ChangedInOrder(paths: seq<string>, before: map<string, string>, after: map<string, string>)
    requires Ascending(paths) && forall p :: p in paths ==> p in before && p in after
    ensures InPathOrder(ChangedAmong(paths, before, after))
  {
    hide StrLess;
    if paths != [] {
      assert Ascending(paths[1..]);
      ChangedInOrder(paths[1..], before, after);
      ChangedMembers(paths[1..], before, after);
      var rest := ChangedAmong(paths[1..], before, after);
      forall c | c in rest ensures StrLess(paths[0], c.path) {
        var k :| 0 <= k < |paths[1..]| && paths[1..][k] == c.path;
        assert paths[k + 1] == c.path;
      }
      ConsInOrder(Change(paths[0], before[paths[0]], after[paths[0]]), rest);
    }
  }

  lemma ConsInOrder(c: Change, rest: seq<Change>)
    requires InPathOrder(rest) && forall d :: d in rest ==> StrLess(c.path, d.path)
    ensures InPathOrder([c] + rest)
  {
    hide StrLess;
  }

  /** The changes of kept artifacts come in path order. */
  lemma ChangesInOrder(before: Snapshot, after: Snapshot)
    ensures InPathOrder(Compare(before, after).changedArtifacts)
  {
    hide SortedSet, Say, ChangedAmong, Ascending;
    ChangedInOrder(SortedSet(before.artifacts.Keys * after.artifacts.Keys), before.artifacts, after.artifacts);
  }

  /** What each reason says of the delta: a fact was gained, the work advanced, or it did not. */
  ghost predicate Gained(d: Delta, reason: string) {
    || (reason == "required_or_observed_artifact_created" && d.newArtifacts != [])
    || (reason == "artifact_hash_changed" && d.changedArtifacts != [])
    || (reason == "new_independent_evidence" && d.newEvidence != [])
    || (reason == "error_resolved" && d.resolvedErrors != [])
  }

  ghost predicate Advanced(d: Delta, reason: string) {
    || (reason == "acceptance_criterion_verified" && d.criteriaSatisfied != [])
    || (reason == "external_state_changed" && d.newExternalState != [])
    || (reason == "plan_validly_revised" && d.planRevised)
  }

  ghost predicate Stalled(d: Delta, reason: string) {
    || (reason == "no_durable_fact_changed" && !d.semanticProgress)
    || (reason == "action_repeated" && d.repeatedAction)
    || (reason == "result_repeated" && d.repeatedResult)
    || (reason == "state_regressed" && (d.removedArtifacts != [] || d.criteriaRegressed != [] || d.newErrors != []))
  }

  function GainReasons(d: Delta): seq<string> {
    Say(d.newArtifacts != [], "required_or_observed_artifact_created")
    + Say(d.changedArtifacts != [], "artifact_hash_changed")
    + Say(d.newEvidence != [], "new_independent_evidence")
    + Say(d.resolvedErrors != [], "error_resolved")
  }

  function AdvanceReasons(d: Delta, gains: seq<string>): seq<string> {
    gains
    + Say(d.criteriaSatisfied != [], "acceptance_criterion_verified")
    + Say(d.newExternalState != [], "external_state_changed")
    + Say(d.planRevised, "plan_validly_revised")
  }

  function StallReasons(d: Delta, others: seq<string>): seq<string> {
    others
    + Say(!d.semanticProgress, "no_durable_fact_changed")
    + Say(d.repeatedAction, "action_repeated")
    + Say(d.repeatedResult, "result_repeated")
    + Say(d.removedArtifacts != [] || d.criteriaRegressed != [] || d.newErrors != [], "state_regressed")
  }

  lemma GainsExact(d: Delta, reason: string)
    ensures reason in GainReasons(d) <==> Gained(d, reason)
  {
  }

  lemma AdvancesExact(d: Delta, gains: seq<string>, reason: string)
    ensures reason in AdvanceReasons(d, gains) <==> reason in gains || Advanced(d, reason)
  {
  }

  lemma StallsExact(d: Delta, others: seq<string>, reason: string)
    ensures reason in StallReasons(d, others) <==> reason in others || Stalled(d, reason)
  {
  }

  lemma ReasonsSplit(before: Snapshot, after: Snapshot)
    ensures var d := Compare(before, after); d.reasons == StallReasons(d, AdvanceReasons(d, GainReasons(d)))
  {
    hide ChangedAmong, Say, SortedSet;
  }

  /** The reasons are exactly those that hold of the delta. */
  lemma ReasonsExact(before: Snapshot, after: Snapshot, reason: string)
    ensures var d := Compare(before, after);
            reason in d.reasons <==> Gained(d, reason) || Advanced(d, reason) || Stalled(d, reason)
  {
    hide *;
    var d := Compare(before, after);
    ReasonsSplit(before, after);
    GainsExact(d, reason);
    AdvancesExact(d, GainReasons(d), reason);
    StallsExact(d, AdvanceReasons(d, GainReasons(d)), reason);
  }

  // ----- no progress is a preorder

  /** Nothing durable is gained: facts are only lost, kept digests agree, the plan is the same or gone. */
  ghost predicate Retreats(a: Snapshot, b: Snapshot) {
    && b.artifacts.Keys <= a.artifacts.Keys
    && (forall p :: p in b.artifacts && p in a.artifacts ==> a.artifacts[p] == b.artifacts[p])
    && b.evidence <= a.evidence
    && a.activeErrors <= b.activeErrors
    && b.satisfiedCriteria <= a.satisfiedCriteria
    && b.externalState <= a.externalState
    && (b.planRevision == "" || b.planRevision == a.planRevision)
  }

  lemma NothingListed(list: seq<string>, inOne: set<string>, notInOther: set<string>)
    requires Lists(list, inOne, notInOther)
    ensures list == [] <==> inOne <= notInOther
  {
    hide Ascending;
    if list != [] {
      assert list[0] in list;
    }
  }

  lemma NothingChanged(a: Snapshot, b: Snapshot)
    ensures Compare(a, b).changedArtifacts == [] <==>
            forall p :: p in b.artifacts && p in a.artifacts ==> a.artifacts[p] == b.artifacts[p]
  {
    hide SortedSet, Say, StrLess;
    var common := SortedSet(a.artifacts.Keys * b.artifacts.Keys);
    ChangedMembers(common, a.artifacts, b.artifacts);
    var changed := ChangedAmong(common, a.artifacts, b.artifacts);
    if changed != [] {
      assert changed[0] in changed;
    }
    forall p | p in a.artifacts && p in b.artifacts && a.artifacts[p] != b.artifacts[p]
      ensures Change(p, a.artifacts[p], b.artifacts[p]) in changed
    {
    }
  }

  /** A step reports no semantic progress exactly when it only retreats. */
  lemma NoProgressIffRetreats(a: Snapshot, b: Snapshot)
    ensures !Compare(a, b).semanticProgress <==> Retreats(a, b)
  {
    hide Compare, Lists;
    var d := Compare(a, b);
    DeltaExact(a, b);
    NothingChanged(a, b);
    NothingListed(d.newArtifacts, b.artifacts.Keys, a.artifacts.Keys);
    NothingListed(d.newEvidence, b.evidence, a.evidence);
    NothingListed(d.resolvedErrors, a.activeErrors, b.activeErrors);
    NothingListed(d.criteriaSatisfied, b.satisfiedCriteria, a.satisfiedCriteria);
    NothingListed(d.newExternalState, b.externalState, a.externalState);
  }

  lemma RetreatsTransitive(a: Snapshot, b: Snapshot, c: Snapshot)
    requires Retreats(a, b) && Retreats(b, c)
    ensures Retreats(a, c)
  {
    forall p | p in c.artifacts && p in a.artifacts ensures a.artifacts[p] == c.artifacts[p] {
      assert p in c.artifacts.Keys;
      assert p in b.artifacts.Keys;
    }
  }

  /** If no step of a run reports progress, comparing its first and last snapshot reports none. */
  lemma {:induction false} NoProgressOverRuns(run: seq<Snapshot>)
    requires run != []
    requires forall i :: 0 <= i < |run| - 1 ==> !Compare(run[i], run[i + 1]).semanticProgress
    ensures !Compare(run[0], run[|run| - 1]).semanticProgress
  {
    hide Compare;
    NoProgressIffRetreats(run[0], run[|run| - 1]);
    if |run| > 1 {
      var init := run[..|run| - 1];
      NoProgressOverRuns(init);
      NoProgressIffRetreats(run[0], init[|init| - 1]);
      NoProgressIffRetreats(run[|run| - 2], run[|run| - 1]);
      assert !Compare(run[|run| - 2], run[|run| - 2 + 1]).semanticProgress;
      RetreatsTransitive(run[0], run[|run| - 2], run[|run| - 1]);
    }
  }

  /** End-to-end progress always has a step that reported it. */
  lemma ProgressHasAStep(run: seq<Snapshot>) returns (i: nat)
    requires run != [] && Compare(run[0], run[|run| - 1]).semanticProgress
    ensures i < |run| - 1 && Compare(run[i], run[i + 1]).semanticProgress
  {
    hide Compare;
    if forall i :: 0 <= i < |run| - 1 ==> !Compare(run[i], run[i + 1]).semanticProgress {
      NoProgressOverRuns(run);
    }
    i :| 0 <= i < |run| - 1 && Compare(run[i], run[i + 1]).semanticProgress;
  }

  /** A change that is undone counts on the way out or on the way back: no progress both ways means no
      durable fact differs. */
  lemma NoProgressBothWays(a: Snapshot, b: Snapshot)
    requires !Compare(a, b).semanticProgress && !Compare(b, a).semanticProgress
    ensures a.artifacts == b.artifacts && a.evidence == b.evidence && a.activeErrors == b.activeErrors
    ensures a.satisfiedCriteria == b.satisfiedCriteria && a.externalState == b.externalState
    ensures a.planRevision == b.planRevision
  {
    hide Compare;
    NoProgressIffRetreats(a, b);
    NoProgressIffRetreats(b, a);
  }
}
