/** Capability grants: validation, signing, verification and the ledger of their uses. */
module CapabilityGrant {
  import opened Wrappers
  import opened Text

  datatype Binding = Binding(runId: string, taskId: string, actorId: string, toolId: string, accessProfileId: string)

  datatype Issuer = Issuer(actorId: string, authority: string)

  /** JSON that validation only walks: scalars by their text. */
  datatype Embedded = Scalar(text: string) | Items(items: seq<Embedded>) | Fields(fields: seq<Field>)

  datatype Field = Field(key: string, value: Embedded)

  /** The parts of the scope that validation looks at; `rest` stands for every other field that the grant's
      objects embed. */
  datatype Scope = Scope(rawReveal: bool, leaseIds: seq<string>, listen: bool, rest: Embedded)

  datatype Budgets = Budgets(
    wallClockMs: int, maxOutputBytes: int, maxNetworkBytes: int, maxCostMicros: int, maxMutations: int)

  datatype Validity = Validity(issuedAt: int, notBefore: int, expiresAt: int, maxUses: int)

  datatype Auth = Auth(algorithm: string, keyId: string, mac: string)

  datatype Grant = Grant(
    grantId: string, issuer: Issuer, binding: Binding, scope: Scope, budgets: Budgets, validity: Validity,
    nonce: string, auth: Auth)

  const ALGORITHM := "hmac-sha256"
  const ACTORS: set<string> := {"desktop_host", "owner_executor", "automation_host", "research_worker",
      "sandbox_worker"}
  const PROFILES: set<string> := {"chat", "project", "owner", "owner_unattended", "isolated_untrusted"}
  const FORBIDDEN_KEYS: set<string> := {"keyMaterial", "secretValue", "rawSecret", "privateKey", "signingKey"}

  type Key = seq<bv8>

  /** The keyed hash of the canonical text of a grant without its mac. */
  type Mac = (Key, Grant) -> string

  // ----- validation and signing

  predicate IsHexDigest(s: string) {
    |s| == 64 && forall i :: 0 <= i < 64 ==> '0' <= s[i] <= '9' || 'a' <= s[i] <= 'f'
  }

  /** `_walk_forbidden_keys` finds key material at some depth. */
  predicate EmbedsKey(e: Embedded) {
    match e
    case Scalar(_) => false
    case Items(items) => exists i :: 0 <= i < |items| && EmbedsKey(items[i])
    case Fields(fields) =>
      exists i :: 0 <= i < |fields| && (fields[i].key in FORBIDDEN_KEYS || EmbedsKey(fields[i].value))
  }

  predicate ValidBinding(b: Binding) {
    && !Blank(b.runId) && !Blank(b.taskId) && !Blank(b.toolId)
    && b.actorId in ACTORS && b.accessProfileId in PROFILES
  }

  predicate ValidBudgets(b: Budgets) {
    && b.wallClockMs >= 0 && b.maxOutputBytes >= 0 && b.maxNetworkBytes >= 0 && b.maxCostMicros >= 0 &&
       b.maxMutations >= 0
  }

  /** Everything `validate_grant_json` asks of a well-shaped grant except the form of its mac. */
  predicate ValidContent(g: Grant) {
    && !Blank(g.grantId) && !Blank(g.nonce)
    && g.issuer == Issuer("desktop_host", "desktop_host:deterministic_policy")
    && ValidBinding(g.binding)
    && !g.scope.rawReveal && !g.scope.listen && !AnyBlank(g.scope.leaseIds)
    && ValidBudgets(g.budgets)
    && g.validity.issuedAt <= g.validity.notBefore < g.validity.expiresAt
    && g.validity.maxUses >= 1
    && g.auth.algorithm == ALGORITHM && !Blank(g.auth.keyId)
    && !EmbedsKey(g.scope.rest)
  }

  /** `validate_grant_json(...)` with its mac required. */
  predicate Valid(g: Grant) {
    ValidContent(g) && IsHexDigest(g.auth.mac)
  }

  function WithMac(g: Grant, mac: string): Grant {
    g.(auth := g.auth.(mac := mac))
  }

  /** `compute_mac` over the signing payload: the grant without its mac. */
  function ComputeMac(mac: Mac, g: Grant, key: Key): string {
    mac(key, WithMac(g, ""))
  }

  /** `sign_grant`. */
  function SignGrant(mac: Mac, g: Grant, keyId: string, key: Key): Result<Grant> {
    if Blank(keyId) || |key| < 8 then Refused
    else
      var unsigned := g.(auth := Auth(ALGORITHM, Strip(keyId), ""));
      if !ValidContent(unsigned) then Refused
      else
        var signed := WithMac(unsigned, ComputeMac(mac, unsigned, key));
        if Valid(signed) then Ok(signed) else Refused
  }

  // ----- the ledger

  datatype Code =
    | GrantInvalid | UnknownKey | UnusableKey | IntegrityMismatch
    | WrongRun | WrongTask | WrongActor | WrongTool | WrongAccessProfile
    | NotYetValid | Expired | InvocationMissing | Replayed | Exhausted

  datatype Ledger = Ledger(uses: map<string, nat>, invocations: set<(string, string)>, nonceOwner: map<string, string>)

  const EMPTY := Ledger(map[], {}, map[])

  function UsesOf(l: Ledger, grantId: string): nat {
    if grantId in l.uses then l.uses[grantId] else 0
  }

  predicate NonceTaken(l: Ledger, nonce: string, grantId: string) {
    nonce in l.nonceOwner && l.nonceOwner[nonce] != grantId
  }

  /** `GrantUseLedger.consume` as a function of the ledger's state. */
  function Consume(l: Ledger, g: Grant, invocationId: string): (Ledger, Option<Code>) {
    var id, nonce, invocation := Strip(g.grantId), Strip(g.nonce), Strip(invocationId);
    if Blank(g.grantId) || Blank(g.nonce) then (l, Some(GrantInvalid))
    else if Blank(invocationId) then (l, Some(InvocationMissing))
    else if NonceTaken(l, nonce, id) || (id, invocation) in l.invocations then (l, Some(Replayed))
    else if UsesOf(l, id) >= g.validity.maxUses then (l, Some(Exhausted))
    else (Ledger(l.uses[id := UsesOf(l, id) + 1], l.invocations + {(id, invocation)}, l.nonceOwner[nonce := id]), None)
  }

  class GrantUseLedger {
    var usesByGrant: map<string, nat>
    var invocations: set<(string, string)>
    var nonceOwner: map<string, string>

    constructor ()
      ensures State() == EMPTY
    {
      usesByGrant, invocations, nonceOwner := map[], {}, map[];
    }

    function State(): Ledger
      reads this
    {
      Ledger(usesByGrant, invocations, nonceOwner)
    }

    /** `consume`: the checks in their order, then the three updates. */
    method ConsumeUse(g: Grant, invocationId: string) returns (code: Option<Code>)
      modifies this
      ensures (State(), code) == Consume(old(State()), g, invocationId)
      ensures code.Some? ==> State() == old(State())
    {
      hide Strip;
      if Blank(g.grantId) || Blank(g.nonce) {
        return Some(GrantInvalid);
      }
      var grantId, nonce := Strip(g.grantId), Strip(g.nonce);
      if Blank(invocationId) {
        return Some(InvocationMissing);
      }
      var token := (grantId, Strip(invocationId));
      if nonce in nonceOwner && nonceOwner[nonce] != grantId {
        return Some(Replayed);
      }
      if token in invocations {
        return Some(Replayed);
      }
      var current := if grantId in usesByGrant then usesByGrant[grantId] else 0;
      if current >= g.validity.maxUses {
        return Some(Exhausted);
      }
      nonceOwner := nonceOwner[nonce := grantId];
      invocations := invocations + {token};
      usesByGrant := usesByGrant[grantId := current + 1];
      code := None;
    }
  }

  // ----- verification

  datatype Call = Call(grant: Grant, expected: Binding, invocationId: string, now: int)

  type Keyring = map<string, Key>

  /** What `verify_and_consume` rejects before it reaches the ledger. */
  function Verify(mac: Mac, keyring: Keyring, call: Call): Option<Code> {
    var g, e := call.grant, call.expected;
    if !Valid(g) then Some(GrantInvalid)
    else if g.auth.keyId !in keyring then Some(UnknownKey)
    else if |keyring[g.auth.keyId]| < 8 then Some(UnusableKey)
    else if g.auth.mac != ComputeMac(mac, g, keyring[g.auth.keyId]) then Some(IntegrityMismatch)
    else if g.binding.runId != e.runId then Some(WrongRun)
    else if g.binding.taskId != e.taskId then Some(WrongTask)
    else if g.binding.actorId != e.actorId then Some(WrongActor)
    else if g.binding.toolId != e.toolId then Some(WrongTool)
    else if g.binding.accessProfileId != e.accessProfileId then Some(WrongAccessProfile)
    else if call.now < g.validity.notBefore then Some(NotYetValid)
    else if call.now >= g.validity.expiresAt then Some(Expired)
    else None
  }

  function VerifyAndConsume(mac: Mac, keyring: Keyring, l: Ledger, call: Call): (Ledger, Option<Code>) {
    var rejected := Verify(mac, keyring, call);
    if rejected.Some? then (l, rejected) else Consume(l, call.grant, call.invocationId)
  }

  method VerifyAndConsumeUse(mac: Mac, keyring: Keyring, ledger: GrantUseLedger, call: Call)
      returns (code: Option<Code>)
    modifies ledger
    ensures (ledger.State(), code) == VerifyAndConsume(mac, keyring, old(ledger.State()), call)
    ensures code.Some? ==> ledger.State() == old(ledger.State())
  {
    hide Valid;
    var rejected := Verify(mac, keyring, call);
    if rejected.Some? {
      return rejected;
    }
    code := ledger.ConsumeUse(call.grant, call.invocationId);
  }

  // ----- runs

  /** The ledger after a run of calls. */
  function Run(mac: Mac, keyring: Keyring, start: Ledger, calls: seq<Call>): Ledger {
    if calls == [] then start
    else VerifyAndConsume(mac, keyring, Run(mac, keyring, start, calls[..|calls| - 1]), calls[|calls| - 1]).0
  }

  /** What the `i`-th call of the run answers. */
  function AnswerAt(mac: Mac, keyring: Keyring, start: Ledger, calls: seq<Call>, i: nat): Option<Code>
    requires i < |calls|
  {
    VerifyAndConsume(mac, keyring, Run(mac, keyring, start, calls[..i]), calls[i]).1
  }

  predicate AcceptedFor(mac: Mac, keyring: Keyring, start: Ledger, calls: seq<Call>, i: nat, grantId: string)
    requires i < |calls|
  {
    AnswerAt(mac, keyring, start, calls, i).None? && Strip(calls[i].grant.grantId) == grantId
  }

  /** The distinct invocations the run accepted for a grant. */
  ghost function AcceptedInvocations(mac: Mac, keyring: Keyring, calls: seq<Call>, grantId: string): set<string> {
    set i | 0 <= i < |calls| && AcceptedFor(mac, keyring, EMPTY, calls, i, grantId) :: Strip(calls[i].invocationId)
  }

  /** The largest maxUses of the accepted calls for a grant, 0 without one. */
  function LargestMaxUses(mac: Mac, keyring: Keyring, calls: seq<Call>, grantId: string): int
    decreases |calls|
  {
    if calls == [] then 0
    else
      var n := |calls| - 1;
      var before := LargestMaxUses(mac, keyring, calls[..n], grantId);
      if AcceptedFor(mac, keyring, EMPTY, calls, n, grantId) && calls[n].grant.validity.maxUses > before
      then calls[n].grant.validity.maxUses else before
  }
}
