/** `AuditChain`: an append-only list of records, each holding the hash of the one before. */
module AuditChain {
  import opened Wrappers
  import opened Text

  /** The hashed fields of a record; `payload` is the canonical text of the payload. */
  datatype Canonical = Canonical(
    index: int, eventType: string, entityId: string, payload: string, createdAt: string, previousHash: string)

  /** SHA-256 of the canonical text, and the keyed hash of a payload digest, a time and a signer. */
  datatype Crypto = Crypto(hash: Canonical -> string, mac: (string, string, string, string) -> string)

  datatype Signer = Signer(id: string, secret: string)

  datatype Record = Record(content: Canonical, recordHash: string, signature: string)

  const ZERO_HASH := "0000000000000000000000000000000000000000000000000000000000000000"

  /** `sign_payload(...).signature`. */
  function Signature(c: Crypto, s: Signer, content: Canonical): string {
    c.mac(s.secret, c.hash(content), content.createdAt, s.id)
  }

  function LastHash(records: seq<Record>): string {
    if records == [] then ZERO_HASH else records[|records| - 1].recordHash
  }

  /** What stops `verify` at a record; with a blank signer identity signing raises instead of returning. */
  datatype Fault = PreviousHashMismatch | RecordHashMismatch | SignerRefused | SignatureMismatch

  /** What `verify` finds wrong with a record that should follow `previous`. */
  function FaultOf(c: Crypto, s: Signer, previous: string, r: Record): Option<Fault> {
    if r.content.previousHash != previous then Some(PreviousHashMismatch)
    else if c.hash(r.content) != r.recordHash then Some(RecordHashMismatch)
    else if Blank(s.id) then Some(SignerRefused)
    else if Signature(c, s, r.content) != r.signature then Some(SignatureMismatch)
    else None
  }

  predicate Sound(c: Crypto, s: Signer, records: seq<Record>, i: nat)
    requires i < |records|
  {
    FaultOf(c, s, LastHash(records[..i]), records[i]) == None
  }

  ghost predicate Verifies(c: Crypto, s: Signer, records: seq<Record>) {
    forall i :: 0 <= i < |records| ==> Sound(c, s, records, i)
  }

  function NewRecord(c: Crypto, s: Signer, records: seq<Record>, eventType: string, entityId: string, payload: string,
      now: string): Record
  {
    var content := Canonical(|records| + 1, Strip(eventType), Strip(entityId), payload, now, LastHash(records));
    Record(content, c.hash(content), Signature(c, s, content))
  }

  /** What an append is asked to record. */
  datatype Event = Event(eventType: string, entityId: string, payload: string, now: string)

  /** The record holds the event, trimmed, under this number. */
  predicate RecordsEvent(r: Record, index: nat, e: Event) {
    && r.content.index == index && r.content.eventType == Strip(e.eventType)
    && r.content.entityId == Strip(e.entityId) && r.content.payload == e.payload && r.content.createdAt == e.now
  }

  /** The record holds the hash of the one before, or 64 zeros, its own hash, and the signature over that
      hash, its time and the signer's identity with the signer's secret. */
  predicate FollowsWith(c: Crypto, s: Signer, before: seq<Record>, r: Record) {
    && r.content.previousHash ==
       (if before == [] then "0000000000000000000000000000000000000000000000000000000000000000"
        else before[|before| - 1].recordHash)
    && r.recordHash == c.hash(r.content)
    && r.signature == c.mac(s.secret, r.recordHash, r.content.createdAt, s.id)
  }

  class Chain {
    const crypto: Crypto
    const signer: Signer
    var records: seq<Record>

    constructor (crypto: Crypto, signer: Signer)
      ensures this.crypto == crypto && this.signer == signer
      ensures records == [] && Verifies(crypto, signer, records)
    {
      this.crypto, this.signer, this.records := crypto, signer, [];
    }

    /** `append`: a blank event type, entity or signer is refused and leaves the chain alone; otherwise
        one record joins the end, and a chain that verified still does. */
    method Append(eventType: string, entityId: string, payload: string, now: string) returns (result: Result<Record>)
      modifies this
      ensures result.Refused? <==> Blank(eventType) || Blank(entityId) || Blank(signer.id)
      ensures result.Refused? ==> records == old(records)
      ensures result.Ok? ==>
                && result.value == NewRecord(crypto, signer, old(records), eventType, entityId, payload, now)
                && RecordsEvent(result.value, |old(records)| + 1, Event(eventType, entityId, payload, now))
                && FollowsWith(crypto, signer, old(records), result.value)
                && records == old(records) + [result.value]
      ensures old(Verifies(crypto, signer, records)) ==> Verifies(crypto, signer, records)
    {
      if Blank(eventType) || Blank(entityId) || Blank(signer.id) {
        return Refused;
      }
      var previousHash := if records != [] then records[|records| - 1].recordHash else ZERO_HASH;
      var content := Canonical(|records| + 1, Strip(eventType), Strip(entityId), payload, now, previousHash);
      var record := Record(content, crypto.hash(content), Signature(crypto, signer, content));
      AppendVerifies(crypto, signer, records, record);
      records := records + [record];
      result := Ok(record);
    }

    /** `verify`: accepts exactly the verifying chains, otherwise names the first faulty record. */
    method Verify() returns (fault: Option<(nat, Fault)>)
      ensures fault.None? <==> Verifies(crypto, signer, records)
      ensures fault.None? <==>
              forall i :: 0 <= i < |records| ==>
                FollowsWith(crypto, signer, records[..i], records[i]) && !Blank(signer.id)
      ensures fault.Some? ==>
                var (i, what) := fault.value;
                && i < |records| && FaultOf(crypto, signer, LastHash(records[..i]), records[i]) == Some(what)
                && forall j :: 0 <= j < i ==> Sound(crypto, signer, records, j)
    {
      var previousHash := ZERO_HASH;
      for i := 0 to |records|
        invariant previousHash == LastHash(records[..i])
        invariant forall j :: 0 <= j < i ==> Sound(crypto, signer, records, j)
      {
        var found := FaultOf(crypto, signer, previousHash, records[i]);
        if found.Some? {
          assert !Sound(crypto, signer, records, i);
          SoundMeaning(crypto, signer, records);
          return Some((i, found.value));
        }
        previousHash := records[i].recordHash;
      }
      SoundMeaning(crypto, signer, records);
      fault := None;
    }
  }

  /** What it is to verify. */
  lemma SoundMeaning(c: Crypto, s: Signer, records: seq<Record>)
    ensures forall i :: 0 <= i < |records| ==>
              (Sound(c, s, records, i) <==> FollowsWith(c, s, records[..i], records[i]) && !Blank(s.id))
  {
    hide Blank;
  }

  /** Which fault a record has after `previous`: the first of a wrong link, a wrong hash, a signer that cannot
      sign and a wrong signature. */
  lemma FaultExact(c: Crypto, s: Signer, previous: string, r: Record)
    ensures var fault, linked, hashed := FaultOf(c, s, previous, r), r.content.previousHash == previous,
                                         r.recordHash == c.hash(r.content);
            && (fault == Some(PreviousHashMismatch) <==> !linked)
            && (fault == Some(RecordHashMismatch) <==> linked && !hashed)
            && (fault == Some(SignerRefused) <==> linked && hashed && Strip(s.id) == "")
            && (fault == Some(SignatureMismatch) <==>
                  linked && hashed && Strip(s.id) != ""
                  && r.signature != c.mac(s.secret, r.recordHash, r.content.createdAt, s.id))
  {
    hide Strip;
  }

  lemma SoundPrefix(c: Crypto, s: Signer, records: seq<Record>, n: nat, i: nat)
    requires i < n <= |records|
    ensures Sound(c, s, records[..n], i) <==> Sound(c, s, records, i)
  {
    assert records[..n][..i] == records[..i];
  }

  lemma AppendVerifies(c: Crypto, s: Signer, records: seq<Record>, r: Record)
    requires FaultOf(c, s, LastHash(records), r) == None
    ensures Verifies(c, s, records) ==> Verifies(c, s, records + [r])
  {
    var all := records + [r];
    assert all[..|records|] == records;
    forall i | 0 <= i < |records| ensures Sound(c, s, all, i) <==> Sound(c, s, records, i) {
      SoundPrefix(c, s, all, |records|, i);
    }
    assert Sound(c, s, all, |records|);
  }

  /** Every prefix of a verifying chain verifies. */
  lemma PrefixVerifies(c: Crypto, s: Signer, records: seq<Record>, n: nat)
    requires Verifies(c, s, records) && n <= |records|
    ensures Verifies(c, s, records[..n])
  {
    forall i | 0 <= i < n ensures Sound(c, s, records[..n], i) {
      SoundPrefix(c, s, records, n, i);
    }
  }

  /** The chain after a run of appends. */
  function AfterAppends(c: Crypto, s: Signer, events: seq<Event>): seq<Record> {
    if events == [] then []
    else
      var before := AfterAppends(c, s, events[..|events| - 1]);
      var e := events[|events| - 1];
      if Blank(e.eventType) || Blank(e.entityId) || Blank(s.id) then before
      else before + [NewRecord(c, s, before, e.eventType, e.entityId, e.payload, e.now)]
  }

  /** Any run of appends verifies, and numbers its records from 1. */
  lemma {:induction false} AppendsVerify(c: Crypto, s: Signer, events: seq<Event>)
    ensures var records := AfterAppends(c, s, events);
            Verifies(c, s, records) && forall i :: 0 <= i < |records| ==> records[i].content.index == i + 1
  {
    hide Strip;
    if events != [] {
      AppendsVerify(c, s, events[..|events| - 1]);
      var before := AfterAppends(c, s, events[..|events| - 1]);
      var e := events[|events| - 1];
      if !Blank(s.id) {
        AppendVerifies(c, s, before, NewRecord(c, s, before, e.eventType, e.entityId, e.payload, e.now));
      }
    }
  }

  /** The events an append accepts, in order. */
  function Accepted(s: Signer, events: seq<Event>): seq<Event> {
    if events == [] then []
    else
      var before, e := Accepted(s, events[..|events| - 1]), events[|events| - 1];
      if Strip(e.eventType) == "" || Strip(e.entityId) == "" || Strip(s.id) == "" then before else before + [e]
  }

  /** The chain after a run of appends holds the accepted events in order, one record each. */
  lemma {:induction false} AppendsRecord(c: Crypto, s: Signer, events: seq<Event>)
    ensures var records, accepted := AfterAppends(c, s, events), Accepted(s, events);
            && |records| == |accepted|
            && forall i :: 0 <= i < |records| ==>
                 RecordsEvent(records[i], i + 1, accepted[i]) && FollowsWith(c, s, records[..i], records[i])
  {
    hide Strip, RecordsEvent, FollowsWith, NewRecord;
    if events != [] {
      var init, e := events[..|events| - 1], events[|events| - 1];
      AppendsRecord(c, s, init);
      var before, records := AfterAppends(c, s, init), AfterAppends(c, s, events);
      NewRecordFits(c, s, before, e);
      forall i | 0 <= i < |before| ensures records[..i] == before[..i] && records[i] == before[i] {
      }
      assert records[..|before|] == before;
    }
  }

  lemma NewRecordFits(c: Crypto, s: Signer, before: seq<Record>, e: Event)
    ensures var r := NewRecord(c, s, before, e.eventType, e.entityId, e.payload, e.now);
            RecordsEvent(r, |before| + 1, e) && FollowsWith(c, s, before, r)
  {
    hide Strip;
  }

  // ----- tamper evidence

  ghost predicate CollisionFree(c: Crypto) {
    && (forall a, b :: c.hash(a) == c.hash(b) ==> a == b)
    && (forall a :: c.hash(a) != ZERO_HASH)
  }

  lemma LastHashIsNotZero(c: Crypto, s: Signer, records: seq<Record>)
    requires CollisionFree(c) && Verifies(c, s, records) && records != []
    ensures LastHash(records) != ZERO_HASH
  {
    assert Sound(c, s, records, |records| - 1);
  }

  /** With a collision-free hash that never gives the start value, the last hash determines the records:
      also across signers, whose signatures alone may differ. */
  lemma {:induction false} LastHashDetermines(c: Crypto, s: Signer, s': Signer, a: seq<Record>, b: seq<Record>)
    requires CollisionFree(c) && Verifies(c, s, a) && Verifies(c, s', b)
    requires LastHash(a) == LastHash(b)
    ensures |a| == |b|
    ensures forall i :: 0 <= i < |a| ==> a[i].content == b[i].content && a[i].recordHash == b[i].recordHash
    ensures s == s' ==> a == b
    decreases |a|
  {
    hide Blank, Signature;
    if a != [] {
      LastHashIsNotZero(c, s, a);
    }
    if b != [] {
      LastHashIsNotZero(c, s', b);
    }
    if a != [] && b != [] {
      var i, j := |a| - 1, |b| - 1;
      assert Sound(c, s, a, i) && Sound(c, s', b, j);
      PrefixVerifies(c, s, a, i);
      PrefixVerifies(c, s', b, j);
      LastHashDetermines(c, s, s', a[..i], b[..j]);
      assert a == a[..i] + [a[i]] && b == b[..j] + [b[j]];
    }
  }

  /** An edit anywhere in a verifying chain that keeps its last hash is caught. */
  lemma EditIsCaught(c: Crypto, s: Signer, records: seq<Record>, i: nat, edited: Record)
    requires CollisionFree(c) && Verifies(c, s, records)
    requires i < |records| && edited != records[i]
    requires i == |records| - 1 ==> edited.recordHash == records[i].recordHash
    ensures !Verifies(c, s, records[i := edited])
  {
    assert records[i := edited][i] == edited;
    if Verifies(c, s, records[i := edited]) {
      LastHashDetermines(c, s, s, records, records[i := edited]);
    }
  }

  /** Dropping records from the end changes the last hash. */
  lemma TruncationChangesHash(c: Crypto, s: Signer, records: seq<Record>, n: nat)
    requires CollisionFree(c) && Verifies(c, s, records) && n < |records|
    ensures LastHash(records[..n]) != LastHash(records)
  {
    PrefixVerifies(c, s, records, n);
    if LastHash(records[..n]) == LastHash(records) {
      LastHashDetermines(c, s, s, records[..n], records);
    }
  }
}
