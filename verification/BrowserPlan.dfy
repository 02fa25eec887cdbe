/** `BrowserPlanningPolicy.validate`: a flag automaton over plan steps, and the local rules it enforces. */
module BrowserPlan {
  import opened Wrappers

  datatype Kind = Observe | Takeover | Verify | Action | Other(name: string)

  datatype Step = Step(kind: Kind, observationAgeMs: int, retry: int, destructive: bool, requiresTakeover: bool)

  datatype Policy = Policy(maxObservationAgeMs: int, maxRetries: int)

  datatype Fault =
    | RetryBudgetExceeded | TakeoverWithoutObservation | VerifyWithoutAction | StepKindInvalid
    | ActionRequiresFreshObservation | TargetStale | TakeoverRequired | PostconditionMissing

  predicate NeedsTakeover(s: Step) {
    s.destructive || s.requiresTakeover
  }

  // ----- the rules of a plan

  predicate FollowsAction(steps: seq<Step>, i: nat)
    requires i < |steps|
  {
    i > 0 && steps[i - 1].kind == Action
  }

  predicate FollowsTakeover(steps: seq<Step>, i: nat)
    requires i < |steps|
  {
    i > 0 && steps[i - 1].kind == Takeover
  }

  predicate Checked(steps: seq<Step>, i: nat)
    requires i < |steps|
  {
    i + 1 < |steps| && (steps[i + 1].kind == Observe || steps[i + 1].kind == Verify)
  }

  /** What a plan must satisfy at one step: a known kind within its retries; an observation first; a
      verification right after an action; an action on a fresh target, right before an observation or a
      verification, and after a takeover when it needs one. */
  predicate RuleAt(p: Policy, steps: seq<Step>, i: nat)
    requires i < |steps|
  {
    var s := steps[i];
    && !s.kind.Other? && s.retry <= p.maxRetries
    && (i == 0 ==> s.kind == Observe)
    && (s.kind == Verify ==> FollowsAction(steps, i))
    && (s.kind == Action ==>
          s.observationAgeMs <= p.maxObservationAgeMs && Checked(steps, i) &&
              (NeedsTakeover(s) ==> FollowsTakeover(steps, i)))
  }

  ghost predicate WellFormed(p: Policy, steps: seq<Step>) {
    forall i :: 0 <= i < |steps| ==> RuleAt(p, steps, i)
  }

  // ----- the first rule a step breaks, looking back only

  /** The fault of one step, given the step before it; the order decides which fault is reported. */
  function StepFault(p: Policy, steps: seq<Step>, i: nat): Option<Fault>
    requires i < |steps|
  {
    var s := steps[i];
    if s.retry > p.maxRetries then Some(RetryBudgetExceeded)
    else match s.kind
      case Observe => None
      case Takeover => if i == 0 || FollowsAction(steps, i) then Some(TakeoverWithoutObservation) else None
      case Verify => if !FollowsAction(steps, i) then Some(VerifyWithoutAction) else None
      case Other(_) => Some(StepKindInvalid)
      case Action =>
        if i == 0 || FollowsAction(steps, i) then Some(ActionRequiresFreshObservation)
        else if s.observationAgeMs > p.maxObservationAgeMs then Some(TargetStale)
        else if NeedsTakeover(s) && !FollowsTakeover(steps, i) then Some(TakeoverRequired)
        else None
  }

  /** Which fault a step has: the retries first, then what its kind asks of the step before it. */
  lemma FaultExact(p: Policy, steps: seq<Step>, i: nat)
    requires i < |steps|
    ensures var s, fault := steps[i], StepFault(p, steps, i);
            var afterAction := i > 0 && steps[i - 1].kind == Action;
            var observed := i > 0 && steps[i - 1].kind != Action;
            var risky := (s.destructive || s.requiresTakeover) && !(i > 0 && steps[i - 1].kind == Takeover);
            && (fault == Some(RetryBudgetExceeded) <==> s.retry > p.maxRetries)
            && (s.retry <= p.maxRetries ==>
                  && (fault == Some(StepKindInvalid) <==> s.kind.Other?)
                  && (fault == Some(TakeoverWithoutObservation) <==> s.kind == Takeover && !observed)
                  && (fault == Some(VerifyWithoutAction) <==> s.kind == Verify && !afterAction)
                  && (fault == Some(ActionRequiresFreshObservation) <==> s.kind == Action && !observed)
                  && (fault == Some(TargetStale) <==>
                        s.kind == Action && observed && s.observationAgeMs > p.maxObservationAgeMs)
                  && (fault == Some(TakeoverRequired) <==>
                        s.kind == Action && observed && s.observationAgeMs <= p.maxObservationAgeMs && risky)
                  && fault != Some(PostconditionMissing))
  {
  }

  ghost predicate Faultless(p: Policy, steps: seq<Step>, n: nat)
    requires n <= |steps|
  {
    forall i :: 0 <= i < n ==> StepFault(p, steps, i) == None
  }

  predicate EndsInAction(steps: seq<Step>) {
    steps != [] && steps[|steps| - 1].kind == Action
  }

  /** Looking back at every step and once at the end is as strict as the rules, which look ahead. */
  lemma StepFaultsAreTheRules(p: Policy, steps: seq<Step>)
    ensures Faultless(p, steps, |steps|) && !EndsInAction(steps) <==> WellFormed(p, steps)
  {
    if Faultless(p, steps, |steps|) && !EndsInAction(steps) {
      forall i | 0 <= i < |steps| ensures RuleAt(p, steps, i) {
        assert StepFault(p, steps, i) == None;
        if i + 1 < |steps| {
          assert StepFault(p, steps, i + 1) == None;
        }
      }
    }
    if WellFormed(p, steps) {
      forall i | 0 <= i < |steps| ensures StepFault(p, steps, i) == None {
        assert RuleAt(p, steps, i);
        if i > 0 {
          assert RuleAt(p, steps, i - 1);
        }
      }
      if steps != [] {
        assert RuleAt(p, steps, |steps| - 1);
      }
    }
  }

  /** `validate`: three flags, one pass. A plan is accepted exactly when it is well formed; otherwise the
      fault is that of the first step that has one, or the missing postcondition at the end. */
  method Validate(p: Policy, steps: seq<Step>) returns (fault: Option<Fault>)
    ensures fault.None? <==> WellFormed(p, steps)
    ensures fault.Some? ==>
              || (Faultless(p, steps, |steps|) && EndsInAction(steps) && fault.value == PostconditionMissing)
              || exists i :: 0 <= i < |steps| && Faultless(p, steps, i) && StepFault(p, steps, i) == fault
  {
    StepFaultsAreTheRules(p, steps);
    var observed, awaitingVerification, takeoverReady := false, false, false;
    for i := 0 to |steps|
      invariant Faultless(p, steps, i)
      invariant observed <==> i > 0 && steps[i - 1].kind != Action
      invariant awaitingVerification <==> i > 0 && steps[i - 1].kind == Action
      invariant takeoverReady <==> i > 0 && steps[i - 1].kind == Takeover
    {
      var step := steps[i];
      ghost var expected := StepFault(p, steps, i);
      if step.retry > p.maxRetries {
        return Some(RetryBudgetExceeded);
      }
      match step.kind
      case Observe =>
        observed, awaitingVerification, takeoverReady := true, false, false;
      case Takeover =>
        if !observed {
          return Some(TakeoverWithoutObservation);
        }
        takeoverReady := true;
      case Verify =>
        if !awaitingVerification {
          return Some(VerifyWithoutAction);
        }
        awaitingVerification := false;
        observed := true;
      case Other(_) =>
        return Some(StepKindInvalid);
      case Action =>
        if !observed || awaitingVerification {
          return Some(ActionRequiresFreshObservation);
        }
        if step.observationAgeMs > p.maxObservationAgeMs {
          return Some(TargetStale);
        }
        if (step.destructive || step.requiresTakeover) && !takeoverReady {
          return Some(TakeoverRequired);
        }
        awaitingVerification, observed, takeoverReady := true, false, false;
    }
    if awaitingVerification {
      return Some(PostconditionMissing);
    }
    fault := None;
  }

  // ----- plans compose

  /** Two accepted plans in a row are accepted; an accepted plan cut before an observation that does not
      check an action leaves two accepted plans. */
  lemma PlansCompose(p: Policy, a: seq<Step>, b: seq<Step>)
    ensures WellFormed(p, a) && WellFormed(p, b) ==> WellFormed(p, a + b)
    ensures WellFormed(p, a + b) && b != [] && b[0].kind == Observe && !EndsInAction(a) ==>
            WellFormed(p, a) && WellFormed(p, b)
  {
    var c := a + b;
    if WellFormed(p, a) && WellFormed(p, b) {
      forall i | 0 <= i < |c| ensures RuleAt(p, c, i) {
        if i < |a| {
          assert RuleAt(p, a, i);
        } else {
          assert RuleAt(p, b, i - |a|);
        }
      }
    }
    if WellFormed(p, c) && b != [] && b[0].kind == Observe && !EndsInAction(a) {
      forall i | 0 <= i < |a| ensures RuleAt(p, a, i) {
        assert RuleAt(p, c, i);
      }
      forall i | 0 <= i < |b| ensures RuleAt(p, b, i) {
        assert RuleAt(p, c, |a| + i);
      }
    }
  }
}
