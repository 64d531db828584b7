/**
 The audit log: records carry the keyed hash of their own content, their
 position and the hash of the record before them.

 The keyed hash is a parameter: any function from a key and a message to a
 digest, which may also fail.
 */
module Audit {
  import opened Foundation
  import opened Text
  import Encoding

  datatype Field = Field(name: string, value: string)

  /** An event; `fields` are listed in the order of the map that holds them. */
  datatype AuditEvent = AuditEvent(
    id: string, occurredAt: int, correlation: string,
    organization: Option<string>, identity: Option<string>,
    category: string, action: string, outcome: string, fields: seq<Field>)

  datatype AuditRecord = AuditRecord(sequence: nat, event: AuditEvent, previousHash: Option<Digest>, hash: Digest)

  // ----- Canonical text -----

  function OrEmpty(value: Option<string>): string {
    if value.Some? then value.value else ""
  }

  function PreviousText(previous: Option<Digest>): string {
    if previous.Some? then Encoding.HexText(previous.value) else ""
  }

  function FieldTexts(fields: seq<Field>): seq<string> {
    seq(2 * |fields|, i requires 0 <= i < 2 * |fields| =>
      if i % 2 == 0 then fields[i / 2].name else fields[i / 2].value)
  }

  /** The texts that a record's hash covers, in order. */
  function CanonicalTexts(event: AuditEvent, sequence: nat, previous: Option<Digest>): seq<string> {
    [Decimal(sequence), event.id, SignedDecimal(event.occurredAt), event.correlation,
     OrEmpty(event.organization), OrEmpty(event.identity),
     event.category, event.action, event.outcome, PreviousText(previous)]
    + FieldTexts(event.fields)
  }

  function Canonical(event: AuditEvent, sequence: nat, previous: Option<Digest>): string {
    Parts(CanonicalTexts(event, sequence, previous))
  }

  lemma {:induction false} FieldTextsSnoc(fields: seq<Field>, i: nat)
    requires i < |fields|
    ensures FieldTexts(fields[..i + 1]) == FieldTexts(fields[..i]) + [fields[i].name, fields[i].value]
  {
  }

  method BuildCanonical(event: AuditEvent, sequence: nat, previous: Option<Digest>) returns (output: string)
    ensures output == Canonical(event, sequence, previous)
  {
    var previousText := "";
    if previous.Some? {
      previousText := Encoding.ToHex(previous.value);
    }
    var head := [Decimal(sequence), event.id, SignedDecimal(event.occurredAt), event.correlation,
                 OrEmpty(event.organization), OrEmpty(event.identity),
                 event.category, event.action, event.outcome, previousText];
    ghost var texts := CanonicalTexts(event, sequence, previous);
    assert texts == head + FieldTexts(event.fields);
    output := AppendParts("", head, []);
    output := AppendFields(output, event.fields, head);
  }

  method AppendFields(output: string, fields: seq<Field>, ghost done: seq<string>) returns (output': string)
    requires output == Parts([] + done)
    ensures output' == Parts(done + FieldTexts(fields))
  {
    output' := output;
    assert [] + done == done + FieldTexts(fields[..0]);
    for i := 0 to |fields|
      invariant output' == Parts(done + FieldTexts(fields[..i]))
    {
      FieldTextsSnoc(fields, i);
      var next := [fields[i].name, fields[i].value];
      output' := AppendParts(output', next, done + FieldTexts(fields[..i]));
      assert done + FieldTexts(fields[..i]) + next == done + FieldTexts(fields[..i + 1]);
    }
    assert fields[..|fields|] == fields;
  }

  /** Two events agree on everything the hash covers; an absent organization or identity counts as an empty one. */
  predicate SameContent(a: AuditEvent, b: AuditEvent) {
    && a.id == b.id && a.occurredAt == b.occurredAt && a.correlation == b.correlation
    && OrEmpty(a.organization) == OrEmpty(b.organization)
    && OrEmpty(a.identity) == OrEmpty(b.identity)
    && a.category == b.category && a.action == b.action && a.outcome == b.outcome
    && a.fields == b.fields
  }

  lemma {:induction false} FieldTextsInjective(a: seq<Field>, b: seq<Field>)
    requires FieldTexts(a) == FieldTexts(b)
    ensures a == b
  {
    forall i | 0 <= i < |a| ensures a[i] == b[i] {
      assert FieldTexts(a)[2 * i] == FieldTexts(b)[2 * i] && FieldTexts(a)[2 * i + 1] == FieldTexts(b)[2 * i + 1];
    }
  }

  lemma {:induction false} PreviousTextInjective(a: Option<Digest>, b: Option<Digest>)
    requires PreviousText(a) == PreviousText(b)
    ensures a == b
  {
    if a.Some? && b.Some? {
      Encoding.HexInjective(a.value, b.value);
    }
  }

  /** The canonical text determines the position, the content and the previous hash. */
  lemma {:induction false} CanonicalInjective(a: AuditEvent, i: nat, p: Option<Digest>, b: AuditEvent, j: nat, q: Option<Digest>)
    requires Canonical(a, i, p) == Canonical(b, j, q)
    ensures i == j && p == q && SameContent(a, b)
  {
    var x, y := CanonicalTexts(a, i, p), CanonicalTexts(b, j, q);
    PartsInjective(x, y);
    assert x[0] == y[0] && x[1] == y[1] && x[2] == y[2] && x[3] == y[3] && x[4] == y[4] && x[5] == y[5];
    assert x[6] == y[6] && x[7] == y[7] && x[8] == y[8] && x[9] == y[9];
    DecimalInjective(i, j);
    SignedDecimalInjective(a.occurredAt, b.occurredAt);
    PreviousTextInjective(p, q);
    assert FieldTexts(a.fields) == x[10..] && FieldTexts(b.fields) == y[10..];
    FieldTextsInjective(a.fields, b.fields);
  }

  // ----- Chains -----

  function PreviousHash(records: seq<AuditRecord>, i: nat): Option<Digest>
    requires i <= |records|
  {
    if i == 0 then None else Some(records[i - 1].hash)
  }

  /** The text under a record's hash. */
  function Message(record: AuditRecord): string {
    Canonical(record.event, record.sequence, record.previousHash)
  }

  /** A record names its predecessor's hash and carries the hash of its own canonical text. */
  predicate Intact(hmac: Hmac, key: string, records: seq<AuditRecord>, i: nat)
    requires i < |records|
  {
    && records[i].previousHash == PreviousHash(records, i)
    && hmac(key, Message(records[i])) == Some(records[i].hash)
  }

  predicate Accepted(hmac: Hmac, key: string, records: seq<AuditRecord>) {
    forall i {:trigger Intact(hmac, key, records, i)} :: 0 <= i < |records| ==> Intact(hmac, key, records, i)
  }

  predicate SameRecord(a: AuditRecord, b: AuditRecord) {
    a.sequence == b.sequence && SameContent(a.event, b.event) && a.previousHash == b.previousHash && a.hash == b.hash
  }

  predicate SameChain(a: seq<AuditRecord>, b: seq<AuditRecord>) {
    |a| == |b| && forall i :: 0 <= i < |a| ==> SameRecord(a[i], b[i])
  }

  /** Two different messages, one signed in each list, with the same hash under the key. */
  ghost predicate Collision(hmac: Hmac, key: string, a: seq<AuditRecord>, b: seq<AuditRecord>) {
    exists i, j :: 0 <= i < |a| && 0 <= j < |b| && Message(a[i]) != Message(b[j])
      && hmac(key, Message(a[i])).Some? && hmac(key, Message(a[i])) == hmac(key, Message(b[j]))
  }

  lemma {:induction false} AcceptedPrefix(hmac: Hmac, key: string, records: seq<AuditRecord>, n: nat)
    requires Accepted(hmac, key, records) && n <= |records|
    ensures Accepted(hmac, key, records[..n])
    ensures PreviousHash(records[..n], n) == PreviousHash(records, n)
  {
    forall i | 0 <= i < n ensures Intact(hmac, key, records[..n], i) {
      assert Intact(hmac, key, records, i);
    }
  }

  lemma {:induction false} CollisionInPrefixes(hmac: Hmac, key: string, a: seq<AuditRecord>, m: nat, b: seq<AuditRecord>, n: nat)
    requires m <= |a| && n <= |b| && Collision(hmac, key, a[..m], b[..n])
    ensures Collision(hmac, key, a, b)
  {
    var i, j :| 0 <= i < m && 0 <= j < n && Message(a[..m][i]) != Message(b[..n][j])
      && hmac(key, Message(a[..m][i])).Some? && hmac(key, Message(a[..m][i])) == hmac(key, Message(b[..n][j]));
  }

  /**
   Tamper evidence: two accepted lists that end in the same hash are the same
   list, record by record, or exhibit a collision of the keyed hash.
   */
  lemma {:induction false} TamperEvident(hmac: Hmac, key: string, a: seq<AuditRecord>, b: seq<AuditRecord>)
    requires Accepted(hmac, key, a) && Accepted(hmac, key, b)
    requires PreviousHash(a, |a|) == PreviousHash(b, |b|)
    ensures SameChain(a, b) || Collision(hmac, key, a, b)
    decreases |a|
  {
    hide Canonical, SameContent;
    if a == [] {
    } else {
      var m, n := |a| - 1, |b| - 1;
      assert Intact(hmac, key, a, m) && Intact(hmac, key, b, n);
      if Message(a[m]) == Message(b[n]) {
        CanonicalInjective(a[m].event, a[m].sequence, a[m].previousHash, b[n].event, b[n].sequence, b[n].previousHash);
        AcceptedPrefix(hmac, key, a, m);
        AcceptedPrefix(hmac, key, b, n);
        TamperEvident(hmac, key, a[..m], b[..n]);
        if Collision(hmac, key, a[..m], b[..n]) {
          CollisionInPrefixes(hmac, key, a, m, b, n);
        } else {
          forall i | 0 <= i < |a| ensures SameRecord(a[i], b[i]) {
            assert i < m ==> SameRecord(a[..m][i], b[..n][i]);
          }
        }
      } else {
        assert hmac(key, Message(a[m])) == hmac(key, Message(b[n]));
      }
    }
  }

  // ----- The repository -----

  predicate Logged(records: seq<AuditRecord>, id: string) {
    exists i :: 0 <= i < |records| && records[i].event.id == id
  }

  /** The log after an attempt to append `event`: unchanged when the id is taken or the hash fails. */
  function Appended(hmac: Hmac, key: string, records: seq<AuditRecord>, event: AuditEvent): seq<AuditRecord> {
    var previous := PreviousHash(records, |records|);
    var hash := hmac(key, Canonical(event, |records| + 1, previous));
    if Logged(records, event.id) || hash.None? then records
    else records + [AuditRecord(|records| + 1, event, previous, hash.value)]
  }

  /** A log built by appending alone. */
  function Built(hmac: Hmac, key: string, events: seq<AuditEvent>): seq<AuditRecord> {
    if events == [] then []
    else Appended(hmac, key, Built(hmac, key, events[..|events| - 1]), events[|events| - 1])
  }

  predicate Numbered(records: seq<AuditRecord>) {
    && (forall i :: 0 <= i < |records| ==> records[i].sequence == i + 1)
    && (forall i, j :: 0 <= i < j < |records| ==> records[i].event.id != records[j].event.id)
  }

  lemma {:induction false} SnocAccepted(hmac: Hmac, key: string, records: seq<AuditRecord>, record: AuditRecord)
    requires Accepted(hmac, key, records) && record.previousHash == PreviousHash(records, |records|)
    requires hmac(key, Message(record)) == Some(record.hash)
    ensures Accepted(hmac, key, records + [record])
  {
    var next := records + [record];
    forall i | 0 <= i < |next| ensures Intact(hmac, key, next, i) {
      if i < |records| {
        assert Intact(hmac, key, records, i);
      }
    }
  }

  lemma {:induction false} AppendKeepsAccepted(hmac: Hmac, key: string, records: seq<AuditRecord>, event: AuditEvent)
    requires Accepted(hmac, key, records) && Numbered(records)
    ensures Accepted(hmac, key, Appended(hmac, key, records, event)) && Numbered(Appended(hmac, key, records, event))
  {
    hide Canonical, Accepted;
    var next := Appended(hmac, key, records, event);
    if next != records {
      SnocAccepted(hmac, key, records, next[|records|]);
    }
  }

  /** Every log built by appending under one key is accepted under it, numbered 1 to n, with no id twice. */
  lemma {:induction false} BuiltAccepted(hmac: Hmac, key: string, events: seq<AuditEvent>)
    ensures Accepted(hmac, key, Built(hmac, key, events)) && Numbered(Built(hmac, key, events))
  {
    if events == [] {
    } else {
      BuiltAccepted(hmac, key, events[..|events| - 1]);
      AppendKeepsAccepted(hmac, key, Built(hmac, key, events[..|events| - 1]), events[|events| - 1]);
    }
  }

  /** The events whose id no earlier one has, in order. */
  function Firsts(events: seq<AuditEvent>): seq<AuditEvent> {
    if events == [] then []
    else
      var init, event := Firsts(events[..|events| - 1]), events[|events| - 1];
      if exists i :: 0 <= i < |init| && init[i].id == event.id then init else init + [event]
  }

  /** While the keyed hash does not fail, a log records exactly the events it was given, each id once, in order. */
  lemma {:induction false} BuiltRecords(hmac: Hmac, key: string, events: seq<AuditEvent>)
    requires forall message :: hmac(key, message).Some?
    ensures |Built(hmac, key, events)| == |Firsts(events)|
    ensures forall i :: 0 <= i < |Firsts(events)| ==> Built(hmac, key, events)[i].event == Firsts(events)[i]
  {
    hide Canonical, PreviousHash;
    if events == [] {
    } else {
      BuiltRecords(hmac, key, events[..|events| - 1]);
      var records, firsts := Built(hmac, key, events[..|events| - 1]), Firsts(events[..|events| - 1]);
      assert Logged(records, events[|events| - 1].id) <==> exists i :: 0 <= i < |firsts| && firsts[i].id == events[|events| - 1].id;
    }
  }

  /** A list that passes verification with the last hash of an honest log is that log, or the keyed hash collided. */
  lemma {:induction false} ForgeryNeedsCollision(hmac: Hmac, key: string, events: seq<AuditEvent>, forged: seq<AuditRecord>)
    requires Accepted(hmac, key, forged)
    requires PreviousHash(forged, |forged|) == PreviousHash(Built(hmac, key, events), |Built(hmac, key, events)|)
    ensures (Numbered(forged) && SameChain(Built(hmac, key, events), forged)) || Collision(hmac, key, Built(hmac, key, events), forged)
  {
    hide Accepted, Built, Appended;
    var honest := Built(hmac, key, events);
    BuiltAccepted(hmac, key, events);
    TamperEvident(hmac, key, honest, forged);
    if SameChain(honest, forged) {
      assert forall i :: 0 <= i < |forged| ==> SameRecord(honest[i], forged[i]);
    }
  }

  class InMemoryAuditRepository {
    var records: seq<AuditRecord>

    constructor ()
      ensures records == []
    {
      records := [];
    }

    method Append(hmac: Hmac, event: AuditEvent, key: string) returns (record: Option<AuditRecord>)
      modifies this
      ensures records == Appended(hmac, key, old(records), event)
      ensures record.Some? <==>
        !Logged(old(records), event.id) && hmac(key, Canonical(event, |old(records)| + 1, PreviousHash(old(records), |old(records)|))).Some?
      ensures record.Some? ==> records == old(records) + [record.value] && record.value.event == event
      ensures old(Accepted(hmac, key, records) && Numbered(records)) ==> Accepted(hmac, key, records) && Numbered(records)
    {
      hide Canonical;
      if Accepted(hmac, key, records) && Numbered(records) {
        AppendKeepsAccepted(hmac, key, records, event);
      }
      for i := 0 to |records|
        invariant forall k :: 0 <= k < i ==> records[k].event.id != event.id
      {
        if records[i].event.id == event.id {
          return None;
        }
      }
      var sequence := |records| + 1;
      var previous := if records == [] then None else Some(records[|records| - 1].hash);
      var canonical := BuildCanonical(event, sequence, previous);
      var hash := hmac(key, canonical);
      if hash.None? {
        return None;
      }
      records := records + [AuditRecord(sequence, event, previous, hash.value)];
      return Some(records[|records| - 1]);
    }

    /** Accepts exactly the intact chains. */
    method Verify(hmac: Hmac, key: string) returns (ok: bool)
      ensures ok <==> Accepted(hmac, key, records)
    {
      hide Canonical;
      var previous: Option<Digest> := None;
      for i := 0 to |records|
        invariant previous == PreviousHash(records, i)
        invariant forall k {:trigger Intact(hmac, key, records, k)} :: 0 <= k < i ==> Intact(hmac, key, records, k)
      {
        var record := records[i];
        if record.previousHash != previous {
          assert !Intact(hmac, key, records, i);
          return false;
        }
        var canonical := BuildCanonical(record.event, record.sequence, previous);
        var expected := hmac(key, canonical);
        if expected.None? || expected.value != record.hash {
          assert !Intact(hmac, key, records, i);
          return false;
        }
        previous := Some(record.hash);
      }
      return true;
    }
  }
}
