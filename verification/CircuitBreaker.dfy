/** `CircuitBreaker`: the provider health after a run of outcomes, and the history it stands for. */
module CircuitBreaker {
  import opened Wrappers
  import opened Text

  datatype CircuitState = Closed | Open | HalfOpen

  /** Times are seconds; an absent or unreadable time is None. */
  datatype ProviderHealth = ProviderHealth(
    state: CircuitState, consecutiveFailures: nat, timeoutFailures: nat, malformedFailures: nat,
    openedAt: Option<int>, cooldownSeconds: int, lastSuccessAt: Option<int>, lastFailureAt: Option<int>)

  const FRESH := ProviderHealth(Closed, 0, 0, 0, None, 120, None, None)

  datatype Outcome = Success(at: int) | Failure(failureClass: string, at: int)

  function AtLeastOne(n: int): int {
    if n > 1 then n else 1
  }

  datatype Breaker = Breaker(threshold: int, cooldown: int) {

    predicate Valid() {
      threshold >= 1 && cooldown >= 1
    }

    static function Make(failureThreshold: int, cooldownSeconds: int): (b: Breaker)
      ensures b.Valid() && (failureThreshold >= 1 ==> b.threshold == failureThreshold)
      ensures (cooldownSeconds >= 1 ==> b.cooldown == cooldownSeconds)
      ensures (failureThreshold < 1 ==> b.threshold == 1) && (cooldownSeconds < 1 ==> b.cooldown == 1)
    {
      Breaker(AtLeastOne(failureThreshold), AtLeastOne(cooldownSeconds))
    }

    function EffectiveState(health: ProviderHealth, now: int): CircuitState {
      if health.state != Open then health.state
      else match health.openedAt
        case None => Open
        case Some(since) => if now - since >= health.cooldownSeconds then HalfOpen else Open
    }

    predicate PermitsRequest(health: ProviderHealth, now: int) {
      EffectiveState(health, now) != Open
    }

    function RecordSuccess(health: ProviderHealth, at: int): ProviderHealth {
      health.(state := Closed, consecutiveFailures := 0, openedAt := None, cooldownSeconds := cooldown,
              lastSuccessAt := Some(at))
    }

    function RecordFailure(health: ProviderHealth, failureClass: string, at: int): ProviderHealth {
      var name := Lower(Strip(failureClass));
      var consecutive := health.consecutiveFailures + 1;
      var opens := consecutive >= threshold || health.state == HalfOpen;
      health.(state := if opens then Open else Closed,
              consecutiveFailures := consecutive,
              timeoutFailures := health.timeoutFailures + (if name == "timeout" then 1 else 0),
              malformedFailures := health.malformedFailures
                                   + (if name == "malformed" || name == "protocol" then 1 else 0),
              openedAt := if opens then Some(at) else health.openedAt,
              cooldownSeconds := cooldown,
              lastFailureAt := Some(at))
    }

    function Record(health: ProviderHealth, o: Outcome): ProviderHealth {
      match o
      case Success(at) => RecordSuccess(health, at)
      case Failure(name, at) => RecordFailure(health, name, at)
    }

    /** The health after the outcomes, oldest first, from fresh health. */
    function Replay(outcomes: seq<Outcome>): ProviderHealth {
      if outcomes == [] then FRESH
      else Record(Replay(outcomes[..|outcomes| - 1]), outcomes[|outcomes| - 1])
    }
  }

  // ----- the history itself

  /** Failures since the last success. */
  function TrailingFailures(outcomes: seq<Outcome>): nat {
    if outcomes == [] || outcomes[|outcomes| - 1].Success? then 0
    else 1 + TrailingFailures(outcomes[..|outcomes| - 1])
  }

  function LastFailure(outcomes: seq<Outcome>): Option<int> {
    if outcomes == [] then None
    else if outcomes[|outcomes| - 1].Failure? then Some(outcomes[|outcomes| - 1].at)
    else LastFailure(outcomes[..|outcomes| - 1])
  }

  function LastSuccess(outcomes: seq<Outcome>): Option<int> {
    if outcomes == [] then None
    else if outcomes[|outcomes| - 1].Success? then Some(outcomes[|outcomes| - 1].at)
    else LastSuccess(outcomes[..|outcomes| - 1])
  }

  function CountClass(outcomes: seq<Outcome>, names: set<string>): nat {
    if outcomes == [] then 0
    else
      var last := outcomes[|outcomes| - 1];
      CountClass(outcomes[..|outcomes| - 1], names)
      + (if last.Failure? && Lower(Strip(last.failureClass)) in names then 1 else 0)
  }

  /** The history blocks a request: enough failures in a row and too little time since the last one. */
  predicate HistoryBlocks(b: Breaker, outcomes: seq<Outcome>, now: int) {
    && TrailingFailures(outcomes) >= b.threshold
    && LastFailure(outcomes).Some?
    && now - LastFailure(outcomes).value < b.cooldown
  }

  /** The stored health refines the outcome history: open exactly on a long enough trailing run of
      failures, never stored half-open, counters exact, and requests blocked exactly while the
      cooldown since the last failure lasts. */
  lemma {:induction false} BreakerRefinesHistory(b: Breaker, outcomes: seq<Outcome>, now: int)
    requires b.Valid()
    ensures var h := b.Replay(outcomes);
            && (h.state == Open <==> TrailingFailures(outcomes) >= b.threshold)
            && h.state != HalfOpen
            && h.consecutiveFailures == TrailingFailures(outcomes)
            && h.timeoutFailures == CountClass(outcomes, {"timeout"})
            && h.malformedFailures == CountClass(outcomes, {"malformed", "protocol"})
            && h.lastFailureAt == LastFailure(outcomes) && h.lastSuccessAt == LastSuccess(outcomes)
            && (h.state == Open ==>
                  h.openedAt == LastFailure(outcomes) && h.openedAt.Some? && h.cooldownSeconds == b.cooldown)
            && (h.state == Closed ==> h.openedAt == None)
            && (b.PermitsRequest(h, now) <==> !HistoryBlocks(b, outcomes, now))
  {
    hide Strip, Lower;
    if outcomes != [] {
      BreakerRefinesHistory(b, outcomes[..|outcomes| - 1], now);
    }
  }

  /** One outcome on any stored health: a success closes the circuit, and a failure opens it when it is one too
      many in a row or when the circuit was half open, and closes it otherwise. */
  lemma OneOutcome(b: Breaker, health: ProviderHealth, name: string, at: int)
    ensures b.RecordSuccess(health, at).state == Closed && b.RecordSuccess(health, at).consecutiveFailures == 0
    ensures var after := b.RecordFailure(health, name, at);
            && after.consecutiveFailures == health.consecutiveFailures + 1
            && (after.state == Open <==> health.consecutiveFailures + 1 >= b.threshold || health.state == HalfOpen)
            && (after.state != Open ==> after.state == Closed && after.openedAt == health.openedAt)
            && (after.state == Open ==>
                  forall now :: b.PermitsRequest(after, now) <==> now - at >= b.cooldown)
  {
    hide Strip, Lower;
  }

  /** Once the cooldown since the last failure is over, a request is permitted whatever happened. */
  lemma CooldownReopens(b: Breaker, outcomes: seq<Outcome>, now: int)
    requires b.Valid()
    requires LastFailure(outcomes).Some? ==> now >= LastFailure(outcomes).value + b.cooldown
    ensures b.PermitsRequest(b.Replay(outcomes), now)
  {
    BreakerRefinesHistory(b, outcomes, now);
  }
}
