/** What holds of the grant-use ledger over every run of checks. */
module GrantRuns {
  import opened Wrappers
  import opened Text
  import opened CapabilityGrant

  // ----- one call

  /** A rejected call leaves the ledger alone; an accepted one adds exactly its token, use and nonce. */
  lemma OneCall(mac: Mac, keyring: Keyring, l: Ledger, call: Call)
    ensures var (after, code) := VerifyAndConsume(mac, keyring, l, call);
            var id, nonce, invocation := Strip(call.grant.grantId), Strip(call.grant.nonce), Strip(call.invocationId);
            && (code.Some? ==> after == l)
            && (code.None? ==>
                  && (id, invocation) !in l.invocations && after.invocations == l.invocations + {(id, invocation)}
                  && UsesOf(l, id) < call.grant.validity.maxUses && after.uses == l.uses[id := UsesOf(l, id) + 1]
                  && !NonceTaken(l, nonce, id) && after.nonceOwner == l.nonceOwner[nonce := id])
  {
    hide Strip, Verify;
  }

  // ----- nonces

  /** A nonce never changes owner. */
  lemma {:induction false} NonceKeepsOwner(mac: Mac, keyring: Keyring, start: Ledger, calls: seq<Call>, nonce: string)
    requires nonce in start.nonceOwner
    ensures nonce in Run(mac, keyring, start, calls).nonceOwner
    ensures Run(mac, keyring, start, calls).nonceOwner[nonce] == start.nonceOwner[nonce]
  {
    hide Strip, VerifyAndConsume;
    if calls != [] {
      var n := |calls| - 1;
      NonceKeepsOwner(mac, keyring, start, calls[..n], nonce);
      OneCall(mac, keyring, Run(mac, keyring, start, calls[..n]), calls[n]);
    }
  }

  // ----- counts

  ghost function InvocationsOf(l: Ledger, grantId: string): set<string> {
    set t | t in l.invocations && t.0 == grantId :: t.1
  }

  lemma AddToken(l: Ledger, after: Ledger, id: string, invocation: string, grantId: string)
    requires (id, invocation) !in l.invocations && after.invocations == l.invocations + {(id, invocation)}
    ensures InvocationsOf(after, grantId) ==
            if grantId == id then InvocationsOf(l, grantId) + {invocation} else InvocationsOf(l, grantId)
    ensures |InvocationsOf(after, grantId)| == |InvocationsOf(l, grantId)| + if grantId == id then 1 else 0
  {
    var before := InvocationsOf(l, grantId);
    if grantId == id {
      assert InvocationsOf(after, grantId) == before + {invocation} by {
        assert (id, invocation) in after.invocations;
      }
      assert invocation !in before;
    } else {
      assert InvocationsOf(after, grantId) == before;
    }
  }

  /** A grant's use count is the number of its recorded invocations. */
  lemma {:induction false} UsesCountInvocations(mac: Mac, keyring: Keyring, calls: seq<Call>, grantId: string)
    ensures var l := Run(mac, keyring, EMPTY, calls);
            UsesOf(l, grantId) == |InvocationsOf(l, grantId)|
  {
    hide Strip, VerifyAndConsume;
    if calls != [] {
      var n := |calls| - 1;
      UsesCountInvocations(mac, keyring, calls[..n], grantId);
      var l := Run(mac, keyring, EMPTY, calls[..n]);
      var call := calls[n];
      OneCall(mac, keyring, l, call);
      if VerifyAndConsume(mac, keyring, l, call).1.None? {
        AddToken(l, Run(mac, keyring, EMPTY, calls), Strip(call.grant.grantId), Strip(call.invocationId), grantId);
      }
    } else {
      assert InvocationsOf(EMPTY, grantId) == {};
    }
  }

  lemma AnswersOfPrefix(mac: Mac, keyring: Keyring, start: Ledger, calls: seq<Call>, n: nat, i: nat)
    requires i < n <= |calls|
    ensures AnswerAt(mac, keyring, start, calls[..n], i) == AnswerAt(mac, keyring, start, calls, i)
  {
    hide VerifyAndConsume;
    assert calls[..n][..i] == calls[..i];
  }

  lemma AcceptedStep(mac: Mac, keyring: Keyring, calls: seq<Call>, grantId: string)
    requires calls != []
    ensures var n := |calls| - 1;
            AcceptedInvocations(mac, keyring, calls, grantId) ==
            AcceptedInvocations(mac, keyring, calls[..n], grantId)
            + (if AcceptedFor(mac, keyring, EMPTY, calls, n, grantId) then {Strip(calls[n].invocationId)} else {})
  {
    hide Strip, AnswerAt;
    var n := |calls| - 1;
    forall i | 0 <= i < n
      ensures AcceptedFor(mac, keyring, EMPTY, calls[..n], i, grantId) <==>
              AcceptedFor(mac, keyring, EMPTY, calls, i, grantId)
    {
      AnswersOfPrefix(mac, keyring, EMPTY, calls, n, i);
    }
    forall x
      ensures x in AcceptedInvocations(mac, keyring, calls, grantId) <==>
              x in AcceptedInvocations(mac, keyring, calls[..n], grantId)
              + (if AcceptedFor(mac, keyring, EMPTY, calls, n, grantId) then {Strip(calls[n].invocationId)} else {})
    {
      if x in AcceptedInvocations(mac, keyring, calls, grantId) {
        var i :| 0 <= i < |calls| && AcceptedFor(mac, keyring, EMPTY, calls, i, grantId) &&
            x == Strip(calls[i].invocationId);
        assert i < n ==> calls[..n][i] == calls[i];
      }
      if x in AcceptedInvocations(mac, keyring, calls[..n], grantId) {
        var i :| 0 <= i < n && AcceptedFor(mac, keyring, EMPTY, calls[..n], i, grantId) &&
            x == Strip(calls[..n][i].invocationId);
        assert calls[..n][i] == calls[i];
      }
    }
  }

  /** The ledger records exactly the accepted invocations. */
  lemma {:induction false} LedgerRecordsAccepted(mac: Mac, keyring: Keyring, calls: seq<Call>, grantId: string)
    ensures InvocationsOf(Run(mac, keyring, EMPTY, calls), grantId) == AcceptedInvocations(mac, keyring, calls, grantId)
  {
    hide Strip, VerifyAndConsume, AcceptedInvocations;
    if calls == [] {
      assert AcceptedInvocations(mac, keyring, calls, grantId) == {} by {
        NothingAccepted(mac, keyring, grantId);
      }
    } else {
      var n := |calls| - 1;
      var l := Run(mac, keyring, EMPTY, calls[..n]);
      LedgerRecordsAccepted(mac, keyring, calls[..n], grantId);
      AcceptedStep(mac, keyring, calls, grantId);
      OneCall(mac, keyring, l, calls[n]);
      if AnswerAt(mac, keyring, EMPTY, calls, n).None? {
        AddToken(l, Run(mac, keyring, EMPTY, calls), Strip(calls[n].grant.grantId), Strip(calls[n].invocationId),
            grantId);
      }
    }
  }

  lemma NothingAccepted(mac: Mac, keyring: Keyring, grantId: string)
    ensures AcceptedInvocations(mac, keyring, [], grantId) == {}
  {
  }

  lemma {:induction false} UsesStayBelow(mac: Mac, keyring: Keyring, calls: seq<Call>, grantId: string)
    ensures UsesOf(Run(mac, keyring, EMPTY, calls), grantId) <= LargestMaxUses(mac, keyring, calls, grantId)
  {
    hide Strip, VerifyAndConsume;
    if calls != [] {
      var n := |calls| - 1;
      UsesStayBelow(mac, keyring, calls[..n], grantId);
      OneCall(mac, keyring, Run(mac, keyring, EMPTY, calls[..n]), calls[n]);
    }
  }

  /** Over any run from an empty ledger a grant's use count is the number of distinct invocations the
      run accepted for it, and never exceeds the largest maxUses presented with them. */
  lemma UsesAreBounded(mac: Mac, keyring: Keyring, calls: seq<Call>, grantId: string)
    ensures var uses := UsesOf(Run(mac, keyring, EMPTY, calls), grantId);
            && uses == |AcceptedInvocations(mac, keyring, calls, grantId)|
            && uses <= LargestMaxUses(mac, keyring, calls, grantId)
  {
    UsesCountInvocations(mac, keyring, calls, grantId);
    LedgerRecordsAccepted(mac, keyring, calls, grantId);
    UsesStayBelow(mac, keyring, calls, grantId);
  }

  /** No invocation of a grant is accepted twice in a run, whatever happens between. */
  lemma NoReplay(mac: Mac, keyring: Keyring, calls: seq<Call>, i: nat, j: nat)
    requires i < j < |calls|
    requires Strip(calls[i].grant.grantId) == Strip(calls[j].grant.grantId)
    requires Strip(calls[i].invocationId) == Strip(calls[j].invocationId)
    requires AnswerAt(mac, keyring, EMPTY, calls, i).None?
    ensures AnswerAt(mac, keyring, EMPTY, calls, j).Some?
  {
    hide Strip, VerifyAndConsume;
    var id := Strip(calls[i].grant.grantId);
    var before := Run(mac, keyring, EMPTY, calls[..j]);
    LedgerRecordsAccepted(mac, keyring, calls[..j], id);
    AnswersOfPrefix(mac, keyring, EMPTY, calls, j, i);
    assert AcceptedFor(mac, keyring, EMPTY, calls[..j], i, id);
    assert Strip(calls[..j][i].invocationId) in AcceptedInvocations(mac, keyring, calls[..j], id);
    assert (id, Strip(calls[j].invocationId)) in before.invocations;
    OneCall(mac, keyring, before, calls[j]);
  }

  // ----- no key material at any depth

  /** Following the indices in order leads to a field whose name is forbidden. */
  predicate KeyAt(e: Embedded, path: seq<nat>)
    decreases |path|
  {
    path != [] &&
    match e
    case Scalar(_) => false
    case Items(items) => path[0] < |items| && KeyAt(items[path[0]], path[1..])
    case Fields(fields) =>
      path[0] < |fields| &&
      if |path| == 1 then fields[path[0]].key in FORBIDDEN_KEYS else KeyAt(fields[path[0]].value, path[1..])
  }

  ghost predicate KeySomewhere(e: Embedded) {
    exists path: seq<nat> :: KeyAt(e, path)
  }

  /** The walk finds a forbidden field exactly when some path leads to one. */
  lemma WalkFindsKeys(e: Embedded)
    ensures EmbedsKey(e) <==> KeySomewhere(e)
  {
    if EmbedsKey(e) {
      var path := KeyPath(e);
      assert KeyAt(e, path);
    } else if KeySomewhere(e) {
      var path: seq<nat> :| KeyAt(e, path);
      KeysAreFound(e, path);
    }
  }

  lemma {:induction false} KeysAreFound(e: Embedded, path: seq<nat>)
    requires KeyAt(e, path)
    ensures EmbedsKey(e)
    decreases |path|
  {
    if e.Items? {
      KeysAreFound(e.items[path[0]], path[1..]);
    } else if |path| > 1 {
      KeysAreFound(e.fields[path[0]].value, path[1..]);
    }
  }

  lemma {:induction false} KeyPath(e: Embedded) returns (path: seq<nat>)
    requires EmbedsKey(e)
    ensures KeyAt(e, path)
  {
    match e
    case Items(items) =>
      var i :| 0 <= i < |items| && EmbedsKey(items[i]);
      var rest := KeyPath(items[i]);
      Longer(e, i, rest);
      path := [i] + rest;
    case Fields(fields) =>
      var i :| 0 <= i < |fields| && (fields[i].key in FORBIDDEN_KEYS || EmbedsKey(fields[i].value));
      if fields[i].key in FORBIDDEN_KEYS {
        path := [i];
      } else {
        var rest := KeyPath(fields[i].value);
        Longer(e, i, rest);
        path := [i] + rest;
      }
  }

  lemma Longer(e: Embedded, i: nat, path: seq<nat>)
    requires path != []
    ensures e.Items? && i < |e.items| && KeyAt(e.items[i], path) ==> KeyAt(e, [i] + path)
    ensures e.Fields? && i < |e.fields| && KeyAt(e.fields[i].value, path) ==> KeyAt(e, [i] + path)
  {
    assert ([i] + path)[1..] == path;
  }

  /** A grant that embeds key material anywhere is neither signed nor accepted. */
  lemma KeysAreRefused(mac: Mac, keyring: Keyring, call: Call, path: seq<nat>, keyId: string, key: Key)
    requires KeyAt(call.grant.scope.rest, path)
    ensures Verify(mac, keyring, call) == Some(GrantInvalid)
    ensures SignGrant(mac, call.grant, keyId, key).Refused?
  {
    hide EmbedsKey, KeyAt, Strip;
    KeysAreFound(call.grant.scope.rest, path);
  }

  // ----- a freshly signed grant

  ghost predicate HexMac(mac: Mac) {
    forall k, g :: IsHexDigest(mac(k, g))
  }

  /** Signing succeeds on any valid content with a usable key. */
  lemma SigningSucceeds(mac: Mac, g: Grant, keyId: string, key: Key)
    requires HexMac(mac) && !Blank(keyId) && |key| >= 8
    requires ValidContent(g.(auth := Auth(ALGORITHM, Strip(keyId), "")))
    ensures SignGrant(mac, g, keyId, key).Ok?
  {
    StripFixed(keyId);
    StripFixed(Strip(keyId));
  }

  /** A signed grant passes every check in its window, under its key and its own binding. */
  lemma SignedGrantVerifies(mac: Mac, keyring: Keyring, g: Grant, keyId: string, key: Key, call: Call)
    requires SignGrant(mac, g, keyId, key) == Ok(call.grant)
    requires Strip(keyId) in keyring && keyring[Strip(keyId)] == key
    requires call.expected == call.grant.binding
    requires call.grant.validity.notBefore <= call.now < call.grant.validity.expiresAt
    ensures Verify(mac, keyring, call) == None
  {
    hide Strip, ValidContent;
    var unsigned := g.(auth := Auth(ALGORITHM, Strip(keyId), ""));
    assert WithMac(call.grant, "") == unsigned;
    assert WithMac(unsigned, "") == unsigned;
  }

  /** A call with a new invocation of a grant that verifies. */
  ghost predicate Presents(mac: Mac, keyring: Keyring, g: Grant, call: Call) {
    call.grant == g && Verify(mac, keyring, call) == None && !Blank(call.invocationId)
  }

  ghost predicate NewInvocations(calls: seq<Call>) {
    forall i, j :: 0 <= i < j < |calls| ==> Strip(calls[i].invocationId) != Strip(calls[j].invocationId)
  }

  /** The ledger has not met the grant. */
  ghost predicate Unused(l: Ledger, g: Grant) {
    && UsesOf(l, Strip(g.grantId)) == 0
    && !NonceTaken(l, Strip(g.nonce), Strip(g.grantId))
    && forall t :: t in l.invocations ==> t.0 != Strip(g.grantId)
  }

  function MinNat(a: nat, b: int): int {
    if a <= b then a else b
  }

  /** One presentation of a new invocation: accepted while uses are left, exhausted afterwards. */
  lemma PresentedOnce(mac: Mac, keyring: Keyring, l: Ledger, g: Grant, call: Call)
    requires Presents(mac, keyring, g, call) && !Blank(g.grantId) && !Blank(g.nonce)
    requires !NonceTaken(l, Strip(g.nonce), Strip(g.grantId)) &&
             (Strip(g.grantId), Strip(call.invocationId)) !in l.invocations
    ensures var (after, code) := VerifyAndConsume(mac, keyring, l, call);
            var id, token := Strip(g.grantId), (Strip(g.grantId), Strip(call.invocationId));
            && !NonceTaken(after, Strip(g.nonce), id)
            && (if UsesOf(l, id) < g.validity.maxUses
                then code == None && UsesOf(after, id) == UsesOf(l, id) + 1 &&
                    after.invocations == l.invocations + {token}
                else code == Some(Exhausted) && after == l)
  {
    hide Strip, Verify;
  }

  ghost function CallIds(calls: seq<Call>): set<string> {
    set i | 0 <= i < |calls| :: Strip(calls[i].invocationId)
  }

  lemma LastIsNew(calls: seq<Call>)
    requires calls != [] && NewInvocations(calls)
    ensures var init, last := calls[..|calls| - 1], Strip(calls[|calls| - 1].invocationId);
            NewInvocations(init) && last !in CallIds(init) && CallIds(init) <= CallIds(calls) && last in CallIds(calls)
  {
    hide Strip;
    var init := calls[..|calls| - 1];
    assert forall i :: 0 <= i < |init| ==> init[i] == calls[i];
  }

  /** The state after `n` presentations: the uses counted, the nonce still the grant's, and no invocation of
      the grant recorded but the presented ones. */
  ghost predicate Presented(l: Ledger, g: Grant, n: nat, ids: set<string>) {
    && UsesOf(l, Strip(g.grantId)) == MinNat(n, g.validity.maxUses)
    && !NonceTaken(l, Strip(g.nonce), Strip(g.grantId))
    && forall t :: t in l.invocations && t.0 == Strip(g.grantId) ==> t.1 in ids
  }

  lemma PresentedOnceMore(mac: Mac, keyring: Keyring, l: Ledger, g: Grant, n: nat, ids: set<string>, call: Call,
      ids': set<string>)
    requires Presents(mac, keyring, g, call) && !Blank(g.grantId) && !Blank(g.nonce)
    requires Presented(l, g, n, ids) && Strip(call.invocationId) !in ids && ids <= ids' &&
             Strip(call.invocationId) in ids'
    ensures Presented(VerifyAndConsume(mac, keyring, l, call).0, g, n + 1, ids')
    ensures VerifyAndConsume(mac, keyring, l, call).1 == if n < g.validity.maxUses then None else Some(Exhausted)
  {
    hide Strip, Verify, VerifyAndConsume, Presents, NonceTaken;
    PresentedOnce(mac, keyring, l, g, call);
  }

  lemma {:induction false} UsesSoFar(mac: Mac, keyring: Keyring, l: Ledger, g: Grant, calls: seq<Call>)
    requires Unused(l, g) && !Blank(g.grantId) && !Blank(g.nonce) && g.validity.maxUses >= 1
    requires NewInvocations(calls)
    requires forall i :: 0 <= i < |calls| ==> Presents(mac, keyring, g, calls[i])
    ensures Presented(Run(mac, keyring, l, calls), g, |calls|, CallIds(calls))
    ensures forall i :: 0 <= i < |calls| ==>
              AnswerAt(mac, keyring, l, calls, i) == if i < g.validity.maxUses then None else Some(Exhausted)
  {
    hide *;
    if calls == [] {
      NoUsesYet(l, g);
      NothingRun(mac, keyring, l, calls);
    } else {
      var n := |calls| - 1;
      var init := calls[..n];
      assert forall i :: 0 <= i < n ==> init[i] == calls[i];
      LastIsNew(calls);
      UsesSoFar(mac, keyring, l, g, init);
      RunUnrolled(mac, keyring, l, calls);
      PrefixAnswers(mac, keyring, l, calls);
      PresentedOnceMore(mac, keyring, Run(mac, keyring, l, init), g, n, CallIds(init), calls[n], CallIds(calls));
    }
  }

  lemma NothingRun(mac: Mac, keyring: Keyring, l: Ledger, calls: seq<Call>)
    requires calls == []
    ensures Run(mac, keyring, l, calls) == l
  {
  }

  lemma PrefixAnswers(mac: Mac, keyring: Keyring, l: Ledger, calls: seq<Call>)
    requires calls != []
    ensures forall i :: 0 <= i < |calls| - 1 ==>
              AnswerAt(mac, keyring, l, calls, i) == AnswerAt(mac, keyring, l, calls[..|calls| - 1], i)
  {
    hide *;
    forall i | 0 <= i < |calls| - 1
      ensures AnswerAt(mac, keyring, l, calls, i) == AnswerAt(mac, keyring, l, calls[..|calls| - 1], i)
    {
      AnswersOfPrefix(mac, keyring, l, calls, |calls| - 1, i);
    }
  }

  lemma RunUnrolled(mac: Mac, keyring: Keyring, l: Ledger, calls: seq<Call>)
    requires calls != []
    ensures var n := |calls| - 1;
            var last := VerifyAndConsume(mac, keyring, Run(mac, keyring, l, calls[..n]), calls[n]);
            Run(mac, keyring, l, calls) == last.0 && AnswerAt(mac, keyring, l, calls, n) == last.1
  {
    hide VerifyAndConsume;
  }

  lemma NoUsesYet(l: Ledger, g: Grant)
    requires Unused(l, g) && g.validity.maxUses >= 1
    ensures Presented(l, g, 0, CallIds([]))
  {
    hide Strip, NonceTaken;
  }

  /** Presented with new invocations in its window, a signed grant the ledger has not met is accepted
      for exactly its first maxUses of them and exhausted afterwards. */
  lemma FirstUsesAccepted(mac: Mac, keyring: Keyring, l: Ledger, g: Grant, keyId: string, key: Key, signed: Grant,
      calls: seq<Call>)
    requires SignGrant(mac, g, keyId, key) == Ok(signed)
    requires Strip(keyId) in keyring && keyring[Strip(keyId)] == key
    requires Unused(l, signed) && NewInvocations(calls)
    requires forall i :: 0 <= i < |calls| ==>
               && calls[i].grant == signed && calls[i].expected == signed.binding && !Blank(calls[i].invocationId)
               && signed.validity.notBefore <= calls[i].now < signed.validity.expiresAt
    ensures forall i :: 0 <= i < |calls| ==>
              AnswerAt(mac, keyring, l, calls, i) == if i < signed.validity.maxUses then None else Some(Exhausted)
  {
    hide Strip, Verify, SignGrant, Unused;
    SignedContent(mac, g, keyId, key);
    forall i | 0 <= i < |calls| ensures Presents(mac, keyring, signed, calls[i]) {
      SignedGrantVerifies(mac, keyring, g, keyId, key, calls[i]);
    }
    UsesSoFar(mac, keyring, l, signed, calls);
  }

  lemma SignedContent(mac: Mac, g: Grant, keyId: string, key: Key)
    requires SignGrant(mac, g, keyId, key).Ok?
    ensures var signed := SignGrant(mac, g, keyId, key).value;
            !Blank(signed.grantId) && !Blank(signed.nonce) && signed.validity.maxUses >= 1
  {
    hide Strip;
  }

  /** With a collision-free mac, changing anything in a signed grant but the mac is detected. */
  lemma TamperingIsCaught(mac: Mac, keyring: Keyring, g: Grant, keyId: string, key: Key, signed: Grant, call: Call)
    requires forall k, a, b :: mac(k, a) == mac(k, b) ==> a == b
    requires SignGrant(mac, g, keyId, key) == Ok(signed)
    requires Strip(keyId) in keyring && keyring[Strip(keyId)] == key
    requires call.grant != signed && call.grant.auth.mac == signed.auth.mac &&
             call.grant.auth.keyId == signed.auth.keyId
    ensures Verify(mac, keyring, call) == Some(GrantInvalid) || Verify(mac, keyring, call) == Some(IntegrityMismatch)
  {
    hide Strip, ValidContent;
    var unsigned := g.(auth := Auth(ALGORITHM, Strip(keyId), ""));
    assert WithMac(unsigned, "") == unsigned;
    assert WithMac(WithMac(call.grant, ""), call.grant.auth.mac) == call.grant;
    assert WithMac(unsigned, signed.auth.mac) == signed;
  }
}
