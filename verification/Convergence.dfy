/** `ConvergenceController.decide`: bounded strategy escalation. */
module Convergence {

  datatype Action =
    | Continue | CompactAndRetry | RequireDifferentAction | RouteToVerifier | SplitTask | AskUser
    | OfferStrongerModel | FailConvergence

  datatype Flags = Flags(
    verifierAvailable: bool, taskCanSplit: bool, askUserAllowed: bool,
    strongerModelAvailable: bool, strongerModelApproved: bool)

  datatype Decision = Decision(action: Action, stage: nat, requiresUserApproval: bool, permissionWideningAllowed: bool)

  function Natural(n: int): nat {
    if n > 0 then n else 0
  }

  function Act(action: Action, stage: nat, approval: bool): Decision {
    Decision(action, stage, approval, false)
  }

  function Decide(progress: bool, consecutiveNoProgress: int, repeatedActionCount: int, repairsRemaining: int,
      f: Flags): Decision
  {
    var noProgress, repeats, repairs := Natural(consecutiveNoProgress), Natural(repeatedActionCount),
        Natural(repairsRemaining);
    if progress then Act(Continue, 0, false)
    else if noProgress <= 1 && repeats <= 1 && repairs > 0 then Act(CompactAndRetry, 1, false)
    else if noProgress <= 2 && repairs > 0 then Act(RequireDifferentAction, 2, false)
    else if f.verifierAvailable && noProgress <= 3 then Act(RouteToVerifier, 3, false)
    else if f.taskCanSplit && noProgress <= 4 then Act(SplitTask, 4, false)
    else if f.askUserAllowed && noProgress <= 5 then Act(AskUser, 5, true)
    else if f.strongerModelAvailable && !f.strongerModelApproved then Act(OfferStrongerModel, 6, true)
    else if f.strongerModelAvailable && f.strongerModelApproved && repairs > 0
    then Act(RequireDifferentAction, 6, false)
    else Act(FailConvergence, 7, false)
  }

  // ----- the decision is the lowest stage that is open

  /** A stage of the escalation is open: its count is not exceeded and what it takes is there. */
  ghost predicate StageOpen(stage: nat, noProgress: int, repeats: int, repairs: int, f: Flags) {
    || (stage == 1 && noProgress <= 1 && repeats <= 1 && repairs > 0)
    || (stage == 2 && noProgress <= 2 && repairs > 0)
    || (stage == 3 && noProgress <= 3 && f.verifierAvailable)
    || (stage == 4 && noProgress <= 4 && f.taskCanSplit)
    || (stage == 5 && noProgress <= 5 && f.askUserAllowed)
    || (stage == 6 && f.strongerModelAvailable && (!f.strongerModelApproved || repairs > 0))
    || stage == 7
  }

  /** The action of each stage; an approved stronger model is used, another is offered. */
  function ActionOf(stage: nat, f: Flags): Action {
    match stage
    case 0 => Continue
    case 1 => CompactAndRetry
    case 2 => RequireDifferentAction
    case 3 => RouteToVerifier
    case 4 => SplitTask
    case 5 => AskUser
    case 6 => if f.strongerModelApproved then RequireDifferentAction else OfferStrongerModel
    case _ => FailConvergence
  }

  /** Progress continues; otherwise the decision takes the lowest open stage and its action. */
  lemma LowestOpenStage(progress: bool, noProgress: int, repeats: int, repairs: int, f: Flags)
    ensures var d := Decide(progress, noProgress, repeats, repairs, f);
            && (d.stage == 0 <==> progress)
            && (!progress ==>
                  && 1 <= d.stage <= 7 && StageOpen(d.stage, noProgress, repeats, repairs, f)
                  && forall lower :: 1 <= lower < d.stage ==> !StageOpen(lower, noProgress, repeats, repairs, f))
            && d.action == ActionOf(d.stage, f)
            && (d.requiresUserApproval <==> d.action == AskUser || d.action == OfferStrongerModel)
            && !d.permissionWideningAllowed
  {
  }

  // ----- runs without progress

  /** The counters a decision is taken on. */
  datatype Point = Point(noProgress: int, repeats: int, repairs: int)

  function DecideAt(p: Point, f: Flags): Decision {
    Decide(false, p.noProgress, p.repeats, p.repairs, f)
  }

  predicate IsRetry(a: Action) {
    a == CompactAndRetry || a == RequireDifferentAction
  }

  predicate Final(a: Action) {
    a == OfferStrongerModel || a == FailConvergence
  }

  /** After a decision without progress the count rises by one, a retry spends a repair, and the number
      of repeated actions does not fall. */
  ghost predicate Follows(p: Point, q: Point, f: Flags) {
    && q.noProgress == Natural(p.noProgress) + 1
    && q.repeats >= p.repeats
    && q.repairs == if IsRetry(DecideAt(p, f).action) then p.repairs - 1 else p.repairs
  }

  ghost predicate StalledRun(run: seq<Point>, f: Flags) {
    forall i :: 0 <= i < |run| - 1 ==> Follows(run[i], run[i + 1], f)
  }

  lemma StageMonotone(p: Point, q: Point, f: Flags)
    requires Natural(p.noProgress) <= Natural(q.noProgress) && p.repeats <= q.repeats && p.repairs >= q.repairs
    ensures DecideAt(p, f).stage <= DecideAt(q, f).stage
  {
  }

  /** Along a stalled run the stage never falls. */
  lemma {:induction false} StageNeverFalls(run: seq<Point>, f: Flags, i: nat, j: nat)
    requires StalledRun(run, f) && i <= j < |run|
    ensures DecideAt(run[i], f).stage <= DecideAt(run[j], f).stage
    decreases j - i
  {
    if i < j {
      assert Follows(run[j - 1], run[j - 1 + 1], f);
      StageNeverFalls(run, f, i, j - 1);
      StageMonotone(run[j - 1], run[j], f);
    }
  }

  /** Decisions a stalled run can still take before it must end. */
  function Budget(p: Point): nat {
    (if Natural(p.noProgress) < 6 then 6 - Natural(p.noProgress) else 0) + Natural(p.repairs)
  }

  lemma BudgetFalls(p: Point, q: Point, f: Flags)
    requires Follows(p, q, f) && !Final(DecideAt(p, f).action)
    ensures Budget(q) < Budget(p)
  {
  }

  lemma {:induction false} BudgetBounds(run: seq<Point>, f: Flags, n: nat)
    requires StalledRun(run, f) && n < |run|
    requires forall i :: 0 <= i < n ==> !Final(DecideAt(run[i], f).action)
    ensures Budget(run[n]) + n <= Budget(run[0])
  {
    if n > 0 {
      BudgetBounds(run, f, n - 1);
      assert Follows(run[n - 1], run[n - 1 + 1], f);
      BudgetFalls(run[n - 1], run[n], f);
    }
  }

  /** A stalled run offers the stronger model or fails once its budget is spent, at the latest. */
  lemma StalledRunEnds(run: seq<Point>, f: Flags)
    requires StalledRun(run, f) && run != []
    requires |run| > Budget(run[0])
    ensures exists n :: 0 <= n <= Budget(run[0]) && Final(DecideAt(run[n], f).action)
    ensures run[0].noProgress == 1 ==> Budget(run[0]) + 1 == 6 + Natural(run[0].repairs)
    ensures run[0].noProgress == 0 ==> Budget(run[0]) + 1 == 7 + Natural(run[0].repairs)
  {
    var b := Budget(run[0]);
    if forall i :: 0 <= i <= b ==> !Final(DecideAt(run[i], f).action) {
      BudgetBounds(run, f, b);
      SpentIsFinal(run[b], f);
    }
  }

  lemma SpentIsFinal(p: Point, f: Flags)
    requires Budget(p) == 0
    ensures Final(DecideAt(p, f).action)
  {
  }

  /** The end is stable: after an offer or a failure a stalled run keeps deciding the same. */
  lemma {:induction false} FinalStays(run: seq<Point>, f: Flags, i: nat, j: nat)
    requires StalledRun(run, f) && i <= j < |run| && Final(DecideAt(run[i], f).action)
    ensures DecideAt(run[j], f) == DecideAt(run[i], f)
    decreases j - i
  {
    if i < j {
      FinalStays(run, f, i, j - 1);
      assert Follows(run[j - 1], run[j - 1 + 1], f);
      FinalStep(run[j - 1], run[j], f);
    }
  }

  lemma FinalStep(p: Point, q: Point, f: Flags)
    requires Follows(p, q, f) && Final(DecideAt(p, f).action)
    ensures DecideAt(q, f) == DecideAt(p, f)
  {
  }

  // ----- when six decisions and the repairs are enough

  /** Among the first `n` decisions of the run one is final. */
  ghost predicate EndsWithin(run: seq<Point>, f: Flags, n: nat)
    requires n <= |run|
  {
    exists i :: 0 <= i < n && Final(DecideAt(run[i], f).action)
  }

  /** Every stalled run from here that is long enough ends within six decisions and the repairs. */
  ghost predicate SixSuffice(p: Point, f: Flags) {
    forall run: seq<Point> ::
      StalledRun(run, f) && |run| >= 6 + Natural(p.repairs) && run[0] == p ==>
          EndsWithin(run, f, 6 + Natural(p.repairs))
  }

  /** Six decisions and the starting repairs are enough exactly when a step without progress is counted
      already, a repair is left or the user may not be asked. */
  lemma SixSufficeIff(p: Point, f: Flags)
    ensures SixSuffice(p, f) <==> p.noProgress >= 1 || p.repairs > 0 || !f.askUserAllowed
  {
    hide EndsWithin, StalledRun;
    if p.noProgress >= 1 || p.repairs > 0 || !f.askUserAllowed {
      forall run: seq<Point> | StalledRun(run, f) && |run| >= 6 + Natural(p.repairs) && run[0] == p
        ensures EndsWithin(run, f, 6 + Natural(p.repairs))
      {
        EndsInTime(run, f);
      }
    } else {
      AskingRun(p, f);
    }
  }

  lemma EndsInTime(run: seq<Point>, f: Flags)
    requires StalledRun(run, f) && run != [] && |run| >= 6 + Natural(run[0].repairs)
    requires run[0].noProgress >= 1 || run[0].repairs > 0 || !f.askUserAllowed
    ensures EndsWithin(run, f, 6 + Natural(run[0].repairs))
  {
    hide DecideAt, Follows;
    var p := run[0];
    if p.noProgress >= 1 {
      StalledRunEnds(run, f);
    } else if p.repairs > 0 {
      assert Follows(run[0], run[0 + 1], f);
      FirstRetry(run[0], run[1], f);
      TailStalls(run, f);
      StalledRunEnds(run[1..], f);
      var n :| 0 <= n <= Budget(run[1]) && Final(DecideAt(run[1..][n], f).action);
      assert run[1..][n] == run[n + 1];
    } else {
      CountsUp(run, f, 5);
      CountOfFive(run[5], f);
    }
  }

  /** From a count of zero with a repair left the first decision is a retry and costs two. */
  lemma FirstRetry(p: Point, q: Point, f: Flags)
    requires Follows(p, q, f) && p.noProgress <= 0 && p.repairs > 0
    ensures Budget(q) + 2 == Budget(p) && Budget(p) == 6 + Natural(p.repairs)
  {
  }

  lemma TailStalls(run: seq<Point>, f: Flags)
    requires StalledRun(run, f) && run != []
    ensures StalledRun(run[1..], f)
  {
    hide Follows;
    forall i | 0 <= i < |run[1..]| - 1 ensures Follows(run[1..][i], run[1..][i + 1], f) {
      assert Follows(run[i + 1], run[i + 1 + 1], f);
    }
  }

  lemma {:induction false} CountsUp(run: seq<Point>, f: Flags, n: nat)
    requires StalledRun(run, f) && 0 < n < |run| && run[0].noProgress <= 0 && run[0].repairs <= 0
    ensures run[n].noProgress == n && run[n].repairs <= 0
  {
    assert Follows(run[n - 1], run[n - 1 + 1], f);
    if n > 1 {
      CountsUp(run, f, n - 1);
    }
  }

  lemma CountOfFive(p: Point, f: Flags)
    requires p.noProgress == 5 && p.repairs <= 0 && !f.askUserAllowed
    ensures Final(DecideAt(p, f).action)
  {
  }

  /** Without repairs the user can be asked at each of the counts zero to five. */
  lemma AskingRun(p: Point, f: Flags)
    requires p.noProgress <= 0 && p.repairs <= 0 && f.askUserAllowed
    ensures !SixSuffice(p, f)
  {
    var run := seq(6, i => if i == 0 then p else Point(i, p.repeats, p.repairs));
    forall i | 0 <= i < 6 ensures !Final(DecideAt(run[i], f).action) && !IsRetry(DecideAt(run[i], f).action) {
      NoRetryBeforeSix(run[i], f);
    }
    hide DecideAt, Decide;
    assert StalledRun(run, f);
    assert !EndsWithin(run, f, 6);
  }

  lemma NoRetryBeforeSix(p: Point, f: Flags)
    requires p.noProgress <= 5 && p.repairs <= 0 && f.askUserAllowed
    ensures !Final(DecideAt(p, f).action) && !IsRetry(DecideAt(p, f).action)
  {
  }

  /** A run that starts as the defaults of the command do: six decisions and none is final. */
  lemma SixDecisionsCanFallShort() returns (run: seq<Point>, f: Flags)
    ensures StalledRun(run, f) && |run| == 6 && run[0] == Point(0, 0, 0)
    ensures !EndsWithin(run, f, 6)
  {
    f := Flags(true, true, true, false, false);
    run := seq(6, i => Point(i, 0, 0));
    forall i | 0 <= i < 6 ensures !Final(DecideAt(run[i], f).action) && !IsRetry(DecideAt(run[i], f).action) {
      NoRetryBeforeSix(run[i], f);
    }
    hide DecideAt, Decide;
  }

  /** What each decision promises about authority. */
  lemma ApprovalFollowsAction(progress: bool, noProgress: int, repeats: int, repairs: int, f: Flags)
    ensures var d := Decide(progress, noProgress, repeats, repairs, f);
            && (d.requiresUserApproval <==> d.action == AskUser || d.action == OfferStrongerModel)
            && (d.action == OfferStrongerModel ==> !f.strongerModelApproved)
            && (d.stage == 6 && d.action == RequireDifferentAction ==> f.strongerModelApproved)
            && (IsRetry(d.action) ==> repairs > 0)
            && (d.action == Continue <==> progress)
  {
  }
}
