/** What `verify_and_consume` answers to a call in any run, clause by clause: which grants pass, and the code
    of the first clause that fails. */
module GrantAnswers {
  import opened Wrappers
  import opened Text
  import opened CapabilityGrant
  import opened GrantRuns

  // ----- the clauses

  ghost predicate NonEmpty(s: string) {
    Strip(s) != ""
  }

  ghost predicate KnownActor(id: string) {
    || id == "desktop_host" || id == "owner_executor" || id == "automation_host" || id == "research_worker"
    || id == "sandbox_worker"
  }

  ghost predicate KnownProfile(id: string) {
    || id == "chat" || id == "project" || id == "owner" || id == "owner_unattended" || id == "isolated_untrusted"
  }

  /** Names, parties and binding are those of a grant of the desktop host. */
  ghost predicate Identified(g: Grant) {
    && NonEmpty(g.grantId) && NonEmpty(g.nonce) && NonEmpty(g.auth.keyId)
    && g.issuer.actorId == "desktop_host" && g.issuer.authority == "desktop_host:deterministic_policy"
    && NonEmpty(g.binding.runId) && NonEmpty(g.binding.taskId) && NonEmpty(g.binding.toolId)
    && KnownActor(g.binding.actorId) && KnownProfile(g.binding.accessProfileId)
  }

  /** Nothing is revealed or listened on, no key material is embedded, and no limit is negative. */
  ghost predicate Contained(g: Grant) {
    && !g.scope.rawReveal && !g.scope.listen && (forall l :: l in g.scope.leaseIds ==> NonEmpty(l))
    && !KeySomewhere(g.scope.rest)
    && g.budgets.wallClockMs >= 0 && g.budgets.maxOutputBytes >= 0 && g.budgets.maxNetworkBytes >= 0
    && g.budgets.maxCostMicros >= 0 && g.budgets.maxMutations >= 0
  }

  ghost predicate WellTimed(g: Grant) {
    g.validity.issuedAt <= g.validity.notBefore < g.validity.expiresAt && g.validity.maxUses >= 1
  }

  ghost predicate HexDigit(c: char) {
    '0' <= c <= '9' || 'a' <= c <= 'f'
  }

  /** Everything validation asks of a grant. */
  ghost predicate WellFormed(g: Grant) {
    && Identified(g) && Contained(g) && WellTimed(g)
    && g.auth.algorithm == "hmac-sha256" && |g.auth.mac| == 64 && forall c :: c in g.auth.mac ==> HexDigit(c)
  }

  /** The mac is the keyed hash of the grant with an empty mac. */
  ghost predicate Signed(mac: Mac, key: Key, g: Grant) {
    g.auth.mac == mac(key, g.(auth := g.auth.(mac := "")))
  }

  /** The clause a code reports on fails for this call on this ledger. */
  ghost predicate Fails(mac: Mac, keyring: Keyring, l: Ledger, call: Call, code: Code) {
    var g, e := call.grant, call.expected;
    var id, nonce, token := Strip(g.grantId), Strip(g.nonce), (Strip(g.grantId), Strip(call.invocationId));
    match code
    case GrantInvalid => !WellFormed(g)
    case UnknownKey => g.auth.keyId !in keyring
    case UnusableKey => g.auth.keyId in keyring && |keyring[g.auth.keyId]| < 8
    case IntegrityMismatch => g.auth.keyId in keyring && !Signed(mac, keyring[g.auth.keyId], g)
    case WrongRun => g.binding.runId != e.runId
    case WrongTask => g.binding.taskId != e.taskId
    case WrongActor => g.binding.actorId != e.actorId
    case WrongTool => g.binding.toolId != e.toolId
    case WrongAccessProfile => g.binding.accessProfileId != e.accessProfileId
    case NotYetValid => call.now < g.validity.notBefore
    case Expired => call.now >= g.validity.expiresAt
    case InvocationMissing => !NonEmpty(call.invocationId)
    case Replayed => (nonce in l.nonceOwner && l.nonceOwner[nonce] != id) || token in l.invocations
    case Exhausted => id in l.uses && l.uses[id] >= g.validity.maxUses
  }

  /** A well-formed grant, signed with a known and usable key, presented for the very run, task, actor, tool
      and access profile it is bound to, inside its window. */
  ghost predicate Cleared(mac: Mac, keyring: Keyring, call: Call) {
    var g, e := call.grant, call.expected;
    && WellFormed(g)
    && g.auth.keyId in keyring && |keyring[g.auth.keyId]| >= 8 && Signed(mac, keyring[g.auth.keyId], g)
    && g.binding.runId == e.runId && g.binding.taskId == e.taskId && g.binding.actorId == e.actorId
    && g.binding.toolId == e.toolId && g.binding.accessProfileId == e.accessProfileId
    && g.validity.notBefore <= call.now < g.validity.expiresAt
  }

  /** A named invocation the ledger does not hold, a nonce of no other grant, and a use left. */
  ghost predicate Unspent(l: Ledger, call: Call) {
    var id, nonce := Strip(call.grant.grantId), Strip(call.grant.nonce);
    && NonEmpty(call.invocationId)
    && (nonce in l.nonceOwner ==> l.nonceOwner[nonce] == id) && (id, Strip(call.invocationId)) !in l.invocations
    && (id in l.uses ==> l.uses[id] < call.grant.validity.maxUses)
  }

  /** The order in which the clauses are checked. */
  function Turn(code: Code): nat {
    match code
    case GrantInvalid => 0
    case UnknownKey => 1
    case UnusableKey => 2
    case IntegrityMismatch => 3
    case WrongRun => 4
    case WrongTask => 5
    case WrongActor => 6
    case WrongTool => 7
    case WrongAccessProfile => 8
    case NotYetValid => 9
    case Expired => 10
    case InvocationMissing => 11
    case Replayed => 12
    case Exhausted => 13
  }

  // ----- one call

  /** The names of fields that hold key material. */
  lemma ForbiddenNames(name: string)
    ensures name in FORBIDDEN_KEYS <==>
            || name == "keyMaterial" || name == "secretValue" || name == "rawSecret" || name == "privateKey"
            || name == "signingKey"
  {
  }

  lemma HexExact(s: string)
    ensures IsHexDigest(s) <==> |s| == 64 && forall c :: c in s ==> HexDigit(c)
  {
    assert forall i :: 0 <= i < |s| ==> s[i] in s;
  }

  lemma BindingExact(b: Binding)
    ensures ValidBinding(b) <==>
            && NonEmpty(b.runId) && NonEmpty(b.taskId) && NonEmpty(b.toolId)
            && KnownActor(b.actorId) && KnownProfile(b.accessProfileId)
  {
    hide Strip;
  }

  lemma WellFormedExact(g: Grant)
    ensures Valid(g) <==> WellFormed(g)
  {
    hide Strip, EmbedsKey, KeySomewhere, IsHexDigest, HexDigit, ValidBinding, KnownActor, KnownProfile;
    WalkFindsKeys(g.scope.rest);
    BindingExact(g.binding);
    HexExact(g.auth.mac);
  }

  /** No clause before this one fails. */
  ghost predicate FirstToFail(mac: Mac, keyring: Keyring, l: Ledger, call: Call, code: Code) {
    && Fails(mac, keyring, l, call, code)
    && forall c :: Turn(c) < Turn(code) ==> !Fails(mac, keyring, l, call, c)
  }

  lemma SameTurn(a: Code, b: Code)
    ensures Turn(a) == Turn(b) ==> a == b
  {
  }

  /** The checks before the ledger, one by one. */
  lemma ChecksInOrder(mac: Mac, keyring: Keyring, l: Ledger, call: Call)
    ensures match Verify(mac, keyring, call)
            case None => Cleared(mac, keyring, call)
            case Some(code) =>
              && !Cleared(mac, keyring, call) && Turn(code) <= 10
              && FirstToFail(mac, keyring, l, call, code)
  {
    hide Strip, Valid, WellFormed;
    WellFormedExact(call.grant);
  }

  lemma LedgerChecksInOrder(mac: Mac, keyring: Keyring, l: Ledger, call: Call)
    requires WellFormed(call.grant)
    ensures match Consume(l, call.grant, call.invocationId).1
            case None => Unspent(l, call)
            case Some(code) =>
              && !Unspent(l, call) && Fails(mac, keyring, l, call, code) && Turn(code) > 10
              && Consume(l, call.grant, call.invocationId).0 == l
              && forall c :: 10 < Turn(c) < Turn(code) ==> !Fails(mac, keyring, l, call, c)
  {
    hide Strip, Contained;
  }

  lemma ClearedFails(mac: Mac, keyring: Keyring, l: Ledger, call: Call)
    requires Cleared(mac, keyring, call)
    ensures WellFormed(call.grant)
    ensures forall c :: Turn(c) <= 10 ==> !Fails(mac, keyring, l, call, c)
    ensures Unspent(l, call) ==> forall c :: !Fails(mac, keyring, l, call, c)
  {
    hide Strip, WellFormed, Signed;
  }

  lemma CallAnswer(mac: Mac, keyring: Keyring, l: Ledger, call: Call)
    ensures var (after, answer) := VerifyAndConsume(mac, keyring, l, call);
            && (answer.None? <==> Cleared(mac, keyring, call) && Unspent(l, call))
            && (forall c :: answer == Some(c) <==> FirstToFail(mac, keyring, l, call, c))
            && (answer.Some? ==> after == l)
  {
    hide Verify, Consume, Fails, Cleared, Unspent;
    ChecksInOrder(mac, keyring, l, call);
    var answer := VerifyAndConsume(mac, keyring, l, call).1;
    if Verify(mac, keyring, call).None? {
      ClearedFails(mac, keyring, l, call);
      LedgerChecksInOrder(mac, keyring, l, call);
      assert answer.Some? ==> FirstToFail(mac, keyring, l, call, answer.value);
    }
    forall c | FirstToFail(mac, keyring, l, call, c) ensures answer == Some(c) {
      assert answer.Some?;
      SameTurn(c, answer.value);
    }
  }

  // ----- any run

  /** A call is accepted exactly when it clears every check and is unspent on the ledger the run has left;
      otherwise it answers the code of the first clause that fails, and the ledger stays as it was. */
  lemma AnswersExactly(mac: Mac, keyring: Keyring, start: Ledger, calls: seq<Call>, i: nat)
    requires i < |calls|
    ensures var l, answer := Run(mac, keyring, start, calls[..i]), AnswerAt(mac, keyring, start, calls, i);
            && (answer.None? <==> Cleared(mac, keyring, calls[i]) && Unspent(l, calls[i]))
            && (forall c :: answer == Some(c) <==> FirstToFail(mac, keyring, l, calls[i], c))
            && (answer.Some? ==> Run(mac, keyring, start, calls[..i + 1]) == l)
  {
    hide VerifyAndConsume, FirstToFail, Cleared, Unspent, Run;
    CallAnswer(mac, keyring, Run(mac, keyring, start, calls[..i]), calls[i]);
    assert calls[..i + 1][..i] == calls[..i] && calls[..i + 1][i] == calls[i];
    RunUnrolled(mac, keyring, start, calls[..i + 1]);
  }

  /** A single failing clause answers its own code. */
  lemma OwnCode(mac: Mac, keyring: Keyring, start: Ledger, calls: seq<Call>, i: nat, code: Code)
    requires i < |calls|
    requires var l := Run(mac, keyring, start, calls[..i]);
             forall c :: Fails(mac, keyring, l, calls[i], c) <==> c == code
    ensures AnswerAt(mac, keyring, start, calls, i) == Some(code)
    ensures Run(mac, keyring, start, calls[..i + 1]) == Run(mac, keyring, start, calls[..i])
  {
    hide *;
    AnswersExactly(mac, keyring, start, calls, i);
    AloneIsFirst(mac, keyring, Run(mac, keyring, start, calls[..i]), calls[i], code);
  }

  lemma AloneIsFirst(mac: Mac, keyring: Keyring, l: Ledger, call: Call, code: Code)
    requires forall c :: Fails(mac, keyring, l, call, c) <==> c == code
    ensures FirstToFail(mac, keyring, l, call, code)
  {
    hide Fails, Turn;
  }

  // ----- signing

  /** A named, usable key signs exactly the grants that are well formed once signed, and changes nothing but
      their authentication. */
  lemma SignedExactly(mac: Mac, g: Grant, keyId: string, key: Key)
    ensures var bare := g.(auth := Auth("hmac-sha256", Strip(keyId), ""));
            var signed := bare.(auth := bare.auth.(mac := mac(key, bare)));
            SignGrant(mac, g, keyId, key) ==
            if NonEmpty(keyId) && |key| >= 8 && WellFormed(signed) then Ok(signed) else Refused
  {
    hide Strip, Valid, ValidBinding, EmbedsKey, AnyBlank, WellFormed;
    var bare := g.(auth := Auth("hmac-sha256", Strip(keyId), ""));
    var signed := bare.(auth := bare.auth.(mac := mac(key, bare)));
    WellFormedExact(signed);
    MacAside(bare, mac(key, bare));
    assert WithMac(bare, "") == bare && WithMac(bare, mac(key, bare)) == signed;
  }

  lemma MacAside(g: Grant, mac: string)
    ensures Valid(WithMac(g, mac)) ==> ValidContent(g)
  {
    hide Strip, ValidBinding, EmbedsKey, AnyBlank, IsHexDigest;
  }
}
